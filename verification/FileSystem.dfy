/**
 _rename over FileX.  The volume is a map from keys to entries.  Every FileX call
 may fail with any status, and a failed call changes nothing; the method is the
 source's sequence of checks, backup, rename, restore, delete and migration.
 */
module FileSystem {
  import opened Arithmetic
  import opened Errors
  import opened Wrappers
  import opened Paths
  import opened PathKeys
  import opened Volume
  import opened RenameOutcome
  import opened Filex
  import opened Mounts
  import opened RenamePlan
  import opened RenameCourse
  import opened RenameFate
  import opened RenameScript
  import opened RenameRefusal

  const CHECKS := {SourceInformation, TargetInformation, SetDefault, Scan}
  const VOLUME_CALLS := {AsideRename, SourceRename, RestoreRename, BackupDelete}

  type Faults = (nat, Site) -> Option<Failure>

  /** One of the calls from number `start` on was made from this site and failed
      silently. */
  ghost predicate FailedSilently(log: seq<Site>, start: nat, faults: Faults, site: Site) {
    exists i :: start <= i < |log| && log[i] == site && Silent(faults(i, site))
  }

  lemma SilentGrows(log: seq<Site>, start: nat, faults: Faults, next: Site, site: Site)
    requires start <= |log|
    ensures FailedSilently(log + [next], start, faults, site) <==>
            FailedSilently(log, start, faults, site) || (site == next && Silent(faults(|log|, next)))
  {
    var after := log + [next];
    assert after[|log|] == next;
    if FailedSilently(log, start, faults, site) {
      var i :| start <= i < |log| && log[i] == site && Silent(faults(i, site));
      assert after[i] == site;
    }
    if FailedSilently(after, start, faults, site) {
      var i :| start <= i < |after| && after[i] == site && Silent(faults(i, site));
      assert i == |log| || log[i] == site;
    }
  }

  function HushOf(silent: set<Site>): Hush {
    Hush(AsideRename in silent, SourceRename in silent, BackupDelete in silent)
  }

  function Tag(site: Site, hushed: bool): set<Site> { if hushed then {site} else {} }

  /** The silent calls of the volume phase: a backup probe, the four calls that
      matter, and the restore. */
  datatype Phase = Phase(probe: bool, h: Hush, restore: bool)

  function Tags(p: Phase): set<Site> {
    Tag(BackupInformation, p.probe) + Tag(AsideRename, p.h.aside) + Tag(SourceRename, p.h.source) +
    Tag(RestoreRename, p.restore) + Tag(BackupDelete, p.h.delete)
  }

  lemma TagsAddUp(before: set<Site>, p: Phase)
    ensures before + Tag(BackupInformation, p.probe) + Tag(AsideRename, p.h.aside) + Tag(SourceRename, p.h.source) +
            Tag(RestoreRename, p.restore) + Tag(BackupDelete, p.h.delete) == before + Tags(p)
  {
  }

  lemma FewTags(before: set<Site>, probe: bool, aside: bool, source: bool)
    ensures before + Tag(BackupInformation, probe) + Tag(AsideRename, aside) ==
            before + Tags(Phase(probe, Hush(aside, false, false), false))
    ensures before + Tag(SourceRename, source) == before + Tags(Phase(false, Hush(false, source, false), false))
    ensures before == before + Tags(Phase(false, Hush(false, false, false), false))
  {
  }

  lemma TagsAreRead(before: set<Site>, p: Phase)
    requires VOLUME_CALLS !! before
    ensures HushOf(before + Tags(p)) == p.h && (CHECKS !! before + Tags(p) <==> CHECKS !! before)
  {
  }

  /** Only calls from these sites were added. */
  predicate Only(before: set<Site>, after: set<Site>, sites: set<Site>) {
    before <= after && after <= before + sites
  }

  /** What the checks establish even if their own calls fail silently. */
  predicate Guarded(t: Tree, plan: Plan, present: bool, mounted: set<Mount>) {
    && ProperNames(plan) && OnVolume(plan, mounted)
    && (plan.directory && plan.A() != plan.B() ==> !(plan.A() <= plan.B()))
    && (present ==> plan.SpellingChanged()) && (present && plan.directory ==> plan.B() in t)
  }

  /** What the replacement of a present destination needs of that. */
  predicate Replaceable(t: Tree, plan: Plan, mounted: set<Mount>) {
    && OnVolume(plan, mounted) && plan.SpellingChanged() && plan.A() != plan.B() && |plan.B()| >= 2
    && (plan.directory ==> !(plan.A() <= plan.B()) && plan.B() in t)
  }

  lemma SourceMoveIsLegal(t: Tree, directory: bool, a: Key, b: Key)
    requires WellFormed(t) && CanMove(t, directory, a, b) && (directory && a != b ==> !(a <= b))
    ensures NotBelow(a, b)
  {
    if !directory && a != b {
      FileIsNotAbove(t, a, b);
    }
  }

  /** Even a restore of something that was never put aside keeps the tree. */
  lemma RestoreIsLegal(t: Tree, directory: bool, a: Key, b: Key, c: Course)
    requires WellFormed(t) && |b| >= 2 && |c.backup| == 2 && !c.moved && !c.restored && !c.deleted
    requires Legal(t, a, b, directory, c) && CanMove(AfterSource(t, a, b, c), directory, c.backup, b)
    requires directory ==> b in t
    ensures NotBelow(c.backup, b)
  {
    SourceIsWellFormed(t, a, b, directory, c);
    if !directory {
      SourceMoveIsLegal(AfterSource(t, a, b, c), directory, c.backup, b);
    } else if c.aside && c.backup != b {
      if c.backup <= b {
        PrefixExists(t, c.backup, b);
      }
    } else {
      MoveOnto(t, b);
    }
  }

  /** Whether the source has moved or not, a destination that is aside under its
      backup name can be deleted. */
  lemma BackupIsDeletable(t: Tree, plan: Plan, c: Course)
    requires WellFormed(t) && !c.restored
    ensures c.aside && CanSetAside(t, plan.A(), plan.B(), plan.directory, c.backup) ==>
      CanDelete(AfterSource(t, plan.A(), plan.B(), c), plan.directory, c.backup)
  {
    if c.aside && CanSetAside(t, plan.A(), plan.B(), plan.directory, c.backup) {
      if c.moved {
        BackupIsLeaf(t, plan.A(), plan.B(), plan.directory, c.backup);
      } else {
        AsideIsLeaf(t, plan.A(), plan.B(), plan.directory, c.backup);
      }
    }
  }

  /** History of one rename: whether its checks passed, what they found, what its
      volume calls met, which of them took effect and whether it believes to have
      renamed. */
  datatype Run = Run(prepared: bool, plan: Plan, present: bool, script: Script, course: Course, renamed: bool) {
    function Job(): Job { JobOf(plan, present) }
  }

  /** The parts of the state that a rename can change. */
  datatype View = View(tree: Tree, descriptors: seq<Descriptor>, cwd: string)

  /** What the checks found is so, as it is unless one of their calls failed silently. */
  ghost predicate WellInformed(run: Run, t: Tree) {
    run.prepared ==> PlanOk(t, run.plan) && Sound(t, run.Job())
  }

  /** What a rename did and reports, for every pattern of failures. */
  ghost predicate Performed(run: Run, v: View, v': View, error: Errno, silent: set<Site>, mounted: set<Mount>) {
    var plan, c := run.plan, run.course;
    if !run.prepared then
      error != EOK && v' == v && VOLUME_CALLS !! silent
    else
      && Guarded(v.tree, plan, run.present, mounted) && MigrationsFit(plan, v.descriptors, v.cwd)
      && (Backed(run.Job()) ==> Unoccupied(plan, v.descriptors, v.cwd))
      && Legal(v.tree, plan.A(), plan.B(), plan.directory, c) && (c.aside ==> |c.backup| == 2)
      && v'.tree == Final(v.tree, plan.A(), plan.B(), c)
      && Play(c, HushOf(silent), run.renamed, error == EOK) == Played(v.tree, run.Job(), run.script)
      && Follows(plan, run.renamed, v.descriptors, v'.descriptors, v.cwd, v'.cwd)
      && (CHECKS !! silent ==> WellInformed(run, v.tree))
  }

  lemma PerformedFlows(run: Run, v: View, v': View, error: Errno, silent: set<Site>, mounted: set<Mount>)
    requires Performed(run, v, v', error, silent, mounted) && run.prepared
    ensures Flow(run.Job(), run.course, error, run.renamed, HushOf(silent))
  {
    PlayedFlows(v.tree, run.Job(), run.script, error);
  }

  /** No pattern of failures, silent or not, breaks the volume or a path buffer. */
  lemma RenameIsSafe(run: Run, v: View, v': View, error: Errno, silent: set<Site>, mounted: set<Mount>)
    requires WellFormed(v.tree) && PathsOk(v.descriptors, v.cwd) && Performed(run, v, v', error, silent, mounted)
    ensures WellFormed(v'.tree) && PathsOk(v'.descriptors, v'.cwd)
  {
    if run.prepared {
      FinalIsWellFormed(v.tree, run.plan.A(), run.plan.B(), run.plan.directory, run.course);
      PathsStayValid(run.plan, run.renamed, v.descriptors, v'.descriptors, v.cwd, v'.cwd);
    }
  }

  /** The source rename failed silently, and its two names are different. */
  predicate SourceLost(run: Run, silent: set<Site>) {
    run.prepared && SourceRename in silent && run.plan.A() != run.plan.B()
  }

  /** Every path names what it named. */
  ghost predicate PathsKept(v: View, v': View) {
    && NamesKept(v.tree, v'.tree, v.descriptors, v'.descriptors)
    && (NamesDirectory(v.tree, KeyOf(v.cwd)) ==> ObjectAt(v'.tree, KeyOf(v'.cwd)) == ObjectAt(v.tree, KeyOf(v.cwd)))
  }

  /** If what the checks found is right, the report is true exactly when neither the
      source rename nor the deletion of the backup failed silently. */
  lemma RenameTellsTruthIff(run: Run, v: View, v': View, error: Errno, silent: set<Site>, mounted: set<Mount>)
    requires WellFormed(v.tree) && Performed(run, v, v', error, silent, mounted) && run.prepared &&
      WellInformed(run, v.tree)
    ensures Truthful(v.tree, run.Job(), v'.tree, error, run.renamed) <==>
      BackupDelete !in silent && !SourceLost(run, silent)
  {
    PerformedFlows(run, v, v', error, silent, mounted);
    TruthfulIff(v.tree, run.Job(), run.course, error, run.renamed, HushOf(silent));
  }

  /** If what the checks found is right and no source rename failed silently, every
      path is kept. */
  lemma RenameKeepsPaths(run: Run, v: View, v': View, error: Errno, silent: set<Site>, mounted: set<Mount>)
    requires WellFormed(v.tree) && PathsOk(v.descriptors, v.cwd) && Performed(run, v, v', error, silent, mounted)
    requires WellInformed(run, v.tree) && !SourceLost(run, silent)
    ensures PathsKept(v, v')
  {
    if run.prepared {
      PerformedFlows(run, v, v', error, silent, mounted);
      PathsKeepObjects(v.tree, run.plan, run.present, run.course, error, run.renamed, HushOf(silent),
                       v.descriptors, v'.descriptors, v.cwd, v'.cwd);
    }
  }

  /** With a descriptor open on the source, this is exact. */
  lemma RenameKeepsPathsIff(run: Run, v: View, v': View, error: Errno, silent: set<Site>, mounted: set<Mount>, i: nat)
    requires WellFormed(v.tree) && PathsOk(v.descriptors, v.cwd) && Performed(run, v, v', error, silent, mounted)
    requires WellInformed(run, v.tree) && OpenAtSource(v.tree, run.plan, v.descriptors, i)
    ensures PathsKept(v, v') <==> !SourceLost(run, silent)
  {
    if SourceLost(run, silent) {
      PerformedFlows(run, v, v', error, silent, mounted);
      SilentSourceLosesDescriptors(v.tree, run.plan, run.present, run.course, error, run.renamed, HushOf(silent),
                                   v.descriptors, v'.descriptors, v.cwd, v'.cwd, i);
    } else {
      RenameKeepsPaths(run, v, v', error, silent, mounted);
    }
  }

  /** When 0 is returned although the source rename failed silently, and neither the
      backup rename nor the deletion did, the destination is destroyed, while the
      source keeps its old name and every path of it is migrated. */
  lemma SilentRenameDestroys(run: Run, v: View, v': View, silent: set<Site>, mounted: set<Mount>)
    requires WellFormed(v.tree) && Performed(run, v, v', EOK, silent, mounted)
    requires run.prepared && WellInformed(run, v.tree) && Backed(run.Job())
    requires SourceRename in silent && AsideRename !in silent && BackupDelete !in silent
    ensures v'.tree == v.tree - {run.plan.B()} && run.renamed && !run.course.moved
  {
    PerformedFlows(run, v, v', EOK, silent, mounted);
    SilentSourceDestroys(v.tree, run.Job(), run.course, run.renamed);
  }

  /** A rename whose source rename fails with an error, and whose restore works, changes
      nothing. */
  lemma FailedRenameIsUndone(run: Run, v: View, v': View, error: Errno, silent: set<Site>, mounted: set<Mount>)
    requires WellFormed(v.tree) && Performed(run, v, v', error, silent, mounted)
    requires run.prepared && WellInformed(run, v.tree) && Loud(run.script.source)
    requires Backed(run.Job()) ==>
      && run.script.backup.Some? && run.script.backup.value !in v.tree && |run.script.backup.value| == 2
      && run.script.aside.None? && run.script.restore.None?
    ensures v' == v && (run.plan.SpellingChanged() ==> error != EOK)
  {
    if Backed(run.Job()) {
      FailureIsUndone(v.tree, run.Job(), run.script);
    }
  }

  // ----- What becomes of the objects

  /** Where the object of k is after a rename. */
  function Home(run: Run, k: Key): Key {
    if run.prepared then HomeOf(k, run.plan.A(), run.plan.B(), run.course) else k
  }

  /** The deletion of the backup took effect. */
  predicate Deletes(run: Run) { run.prepared && run.course.deleted }

  /** For every pattern of failures, and whether or not the checks were right: each
      object is under one name, its home, unless the deletion hit that name; and
      then it is gone. */
  lemma RenameKeepsObjectIff(run: Run, v: View, v': View, error: Errno, silent: set<Site>, mounted: set<Mount>, k: Key)
    requires WellFormed(v.tree) && Performed(run, v, v', error, silent, mounted) && k in v.tree
    ensures if Deletes(run) && Home(run, k) == run.course.backup then Gone(v.tree, k, v'.tree)
            else OnlyAt(v.tree, k, v'.tree, Home(run, k))
  {
    if run.prepared {
      ObjectIsKeptIff(v.tree, run.plan.A(), run.plan.B(), run.plan.directory, run.course, k);
    } else {
      NameOfObject(v.tree, k);
    }
  }

  /** If what the checks found is right, the source is under its new name if its
      rename took effect, else under its old name, and under no other, unless the
      deletion hit it. */
  lemma RenameKeepsSourceIff(run: Run, v: View, v': View, error: Errno, silent: set<Site>, mounted: set<Mount>)
    requires WellFormed(v.tree) && Performed(run, v, v', error, silent, mounted)
    requires run.prepared && WellInformed(run, v.tree)
    ensures if SourceDeleted(run.Job(), run.course) then Gone(v.tree, run.plan.A(), v'.tree)
            else OnlyAt(v.tree, run.plan.A(), v'.tree, if run.course.moved then run.plan.B() else run.plan.A())
    ensures SourceDeleted(run.Job(), run.course) ==> error == EOK && AsideRename in silent && SourceRename in silent
  {
    PerformedFlows(run, v, v', error, silent, mounted);
    SourceIsKeptIff(v.tree, run.Job(), run.course, error, run.renamed, HushOf(silent));
  }

  /** So is a destination under the backup name or its own, unless the deletion hit
      it; and then 0 is returned. */
  lemma RenameKeepsDestinationIff(run: Run, v: View, v': View, error: Errno, silent: set<Site>, mounted: set<Mount>)
    requires WellFormed(v.tree) && Performed(run, v, v', error, silent, mounted)
    requires run.prepared && WellInformed(run, v.tree) && run.plan.B() in v.tree && run.plan.A() != run.plan.B()
    ensures var c := run.course;
      if DestinationDeleted(run.Job(), c) then Gone(v.tree, run.plan.B(), v'.tree)
      else OnlyAt(v.tree, run.plan.B(), v'.tree, if c.aside && !c.restored then c.backup else run.plan.B())
    ensures DestinationDeleted(run.Job(), run.course) ==> error == EOK
  {
    PerformedFlows(run, v, v', error, silent, mounted);
    DestinationIsKeptIff(v.tree, run.Job(), run.course, error, run.renamed, HushOf(silent));
  }

  /** No object appears, and none disappears but the one that a deletion hits: the
      destination if it is aside, else whatever has the backup name. */
  lemma RenameConservesObjects(run: Run, v: View, v': View, error: Errno, silent: set<Site>, mounted: set<Mount>)
    requires WellFormed(v.tree) && Performed(run, v, v', error, silent, mounted) && WellInformed(run, v.tree)
    ensures Deletes(run) ==> Victim(run.Job(), run.course) in v.tree && error == EOK
    ensures Ids(v'.tree) ==
      if Deletes(run) then Ids(v.tree) - {v.tree[Victim(run.Job(), run.course)].id} else Ids(v.tree)
  {
    if run.prepared {
      PerformedFlows(run, v, v', error, silent, mounted);
      ObjectsAreConservedBut(v.tree, run.Job(), run.course, error, run.renamed, HushOf(silent));
    }
  }

  /** If the source is below the destination, which was taken for empty, it goes
      aside with it and is under one of its two names again only after the restore. */
  lemma RenameTakesSourceAside(run: Run, v: View, v': View, error: Errno, silent: set<Site>, mounted: set<Mount>)
    requires WellFormed(v.tree) && Performed(run, v, v', error, silent, mounted) && run.prepared
    requires run.plan.A() in v.tree && run.plan.B() <= run.plan.A() && run.plan.A() != run.plan.B()
    ensures var c, a := run.course, run.plan.A();
      && !c.moved && Home(run, a) == (if c.aside && !c.restored then Rebase(a, run.plan.B(), c.backup) else a)
      && (c.aside && c.backup != run.plan.B() && !c.restored ==> Home(run, a) != a && Home(run, a) != run.plan.B())
  {
    SourceGoesAside(v.tree, run.plan.A(), run.plan.B(), run.plan.directory, run.course);
  }

  /** There is another spelling in the way. */
  predicate Replaces(t: Tree, plan: Plan) { plan.SpellingChanged() && plan.B() in t }

  /** The new name has a parent and, if something is to be replaced, a backup name
      is free. */
  ghost predicate HasRoom(t: Tree, plan: Plan, sequence: nat) {
    HasParent(t, plan.B()) && (plan.B() in t && plan.A() != plan.B() ==> BackupAvailable(plan.mount, t, sequence))
  }

  /** The error is that of the failure, if there was one. */
  predicate Tells(error: Errno, fault: Option<Failure>) { fault.Some? ==> error == FilexErrno(fault.value) }

  /** The destination is put aside. */
  predicate Aside(t: Tree, plan: Plan, found: Option<Key>, fault: Option<Failure>) {
    found.Some? && fault.None? && CanMove(t, plan.directory, plan.B(), found.value)
  }

  /** The calls that took effect were legal ones, on a backup name of two components. */
  predicate Fits(t: Tree, plan: Plan, c: Course) {
    Legal(t, plan.A(), plan.B(), plan.directory, c) && (c.aside ==> |c.backup| == 2)
  }

  function AsideCourse(t: Tree, plan: Plan, found: Option<Key>, fault: Option<Failure>): Course
    requires found.Some?
  {
    Course(found.value, Aside(t, plan, found, fault), false, false, false)
  }

  lemma AsideFits(t: Tree, plan: Plan, found: Option<Key>, fault: Option<Failure>)
    requires found.Some? && |found.value| == 2 && |plan.B()| >= 2
    ensures var c := AsideCourse(t, plan, found, fault);
      && Fits(t, plan, c)
      && Final(t, plan.A(), plan.B(), c) == if Aside(t, plan, found, fault) then Move(t, plan.B(), found.value) else t
  {
    assert NotBelow(plan.B(), found.value);
  }

  /** What is reported once the destination is believed aside. */
  predicate Concludes(play: Play, s: Script, error: Errno) {
    && (Loud(s.source) && (play.course.restored || Silent(s.restore)) ==> error == FilexErrno(s.source.value))
    && (!play.renamed && Loud(s.restore) ==> error == FilexErrno(s.restore.value))
    && (play.renamed && Loud(s.delete) ==> error == FilexErrno(s.delete.value))
  }

  /** The volume calls can succeed. */
  ghost predicate Feasible(t: Tree, plan: Plan, present: bool, backup: Option<Key>) {
    && Sound(t, JobOf(plan, present))
    && if Backed(JobOf(plan, present)) then backup.Some? && backup.value !in t && |backup.value| == 2
       else CanMove(t, plan.directory, plan.A(), plan.B())
  }

  class FileSystem {
    const mounted: set<Mount>
    /** The n-th FileX call, made from site s, fails with faults(n, s) if that is
        something. */
    const faults: Faults
    /** What the n-th call meets if it scans a directory that could not be set. */
    const stray: nat -> bool
    /** The sites of all FileX calls made so far. */
    var log: seq<Site>
    var tree: Tree
    var descriptors: seq<Descriptor>
    var cwd: string
    var backupSequence: nat
    /** History: the calls before the current rename, and the sites of its own
        calls that failed silently. */
    ghost var earlier: seq<Site>
    ghost var silent: set<Site>

    /** Any sound state may come first. */
    constructor (mounted: set<Mount>, faults: Faults, stray: nat -> bool, tree: Tree, descriptors: seq<Descriptor>,
                 cwd: string)
      requires WellFormed(tree) && PathsOk(descriptors, cwd)
      ensures this.mounted == mounted && this.faults == faults && this.stray == stray
      ensures Valid() && Now() == View(tree, descriptors, cwd) && log == [] && backupSequence == 0
    {
      this.mounted, this.faults, this.stray := mounted, faults, stray;
      this.tree, this.descriptors, this.cwd := tree, descriptors, cwd;
      log, backupSequence, earlier, silent := [], 0, [], {};
    }

    ghost predicate Valid()
      reads this
    {
      WellFormed(tree) && PathsOk(descriptors, cwd) && backupSequence < SEQUENCE_LIMIT && Recorded()
    }

    ghost predicate Recorded()
      reads this
    {
      && earlier <= log
      && forall s {:trigger FailedSilently(log, |earlier|, faults, s)} ::
           s in silent <==> FailedSilently(log, |earlier|, faults, s)
    }

    // ----- What may fail

    /** Calls from this site never fail. */
    ghost predicate Works(site: Site) { forall n: nat :: faults(n, site).None? }

    /** They always fail as if there were no such entry. */
    ghost predicate Misses(site: Site) { forall n: nat :: faults(n, site) == Some(FX_NOT_FOUND) }

    /** Calls from this site always fail with this error. */
    ghost predicate Fails(site: Site, e: Errno) {
      e != EOK && forall n: nat :: faults(n, site).Some? && FilexErrno(faults(n, site).value) == e
    }

    /** Some call from this site meets this. */
    ghost predicate Meets(site: Site, fault: Option<Failure>) { exists n: nat :: faults(n, site) == fault }

    /** The checks do not fail, except that scans may fail silently. */
    ghost predicate ChecksWork() {
      && Works(SourceInformation) && Works(TargetInformation) && Works(SetDefault) && Works(ResetDefault) &&
        Works(Flush)
      && forall n: nat :: faults(n, Scan).None? || Silent(faults(n, Scan))
    }

    ghost predicate AllChecksWork() { ChecksWork() && Works(Scan) }

    /** Every scan fails silently. */
    ghost predicate ScanLies() { forall n: nat :: Silent(faults(n, Scan)) }

    /** The only faults are silent ones of source renames. */
    ghost predicate Smooth() {
      && (forall n: nat, s: Site :: s != SourceRename ==> faults(n, s).None?)
      && (forall n: nat :: faults(n, SourceRename).Some? ==> Silent(faults(n, SourceRename)))
    }

    lemma SmoothWorks()
      requires Smooth()
      ensures ChecksWork() && Works(BackupInformation) && Works(AsideRename) && Works(BackupDelete)
    {
    }

    /** What the search for a backup name, from this sequence number on, comes up with. */
    ghost predicate Searched(m: Mount, t: Tree, base: nat, backup: Option<Key>) {
      && (backup.Some? ==> |backup.value| == 2)
      && (Works(BackupInformation) && BackupAvailable(m, t, base) ==> backup.Some? && backup.value !in t)
      && (Misses(BackupInformation) ==> backup == Some(KeyOf(BackupPath(m, Candidate(base, 0)))))
    }

    ghost predicate Faced(s: Script) {
      && Meets(AsideRename, s.aside) && Meets(SourceRename, s.source)
      && Meets(RestoreRename, s.restore) && Meets(BackupDelete, s.delete)
    }

    // ----- FileX

    method Ask(site: Site) returns (fault: Option<Failure>)
      requires Recorded()
      modifies this`log, this`silent
      ensures Recorded() && log == old(log) + [site] && fault == faults(|old(log)|, site)
      ensures silent == old(silent) + if Silent(fault) then {site} else {}
    {
      ghost var before := silent;
      fault := faults(|log|, site);
      log := log + [site];
      silent := silent + if Silent(fault) then {site} else {};
      forall s
        ensures s in silent <==> FailedSilently(log, |earlier|, faults, s)
      {
        SilentGrows(old(log), |earlier|, faults, site, s);
        assert s in before <==> FailedSilently(old(log), |earlier|, faults, s);
      }
    }

    method FxDirectoryInformation(site: Site, k: Key) returns (status: FxStatus, directory: bool, ghost hushed: bool)
      requires Recorded()
      modifies this`log, this`silent
      ensures Recorded() && log == old(log) + [site] && silent == old(silent) + Tag(site, hushed)
      ensures status.FX_SUCCESS? ==> !hushed && k in tree && directory == tree[k].directory
      ensures !status.FX_SUCCESS? ==> (FilexErrno(status) == EOK <==> hushed)
      ensures Works(site) ==> if k in tree then status.FX_SUCCESS? else status.FX_NOT_FOUND?
      ensures Misses(site) ==> status.FX_NOT_FOUND?
      ensures forall e :: Fails(site, e) ==> FilexErrno(status) == e
    {
      var fault := Ask(site);
      hushed := Silent(fault);
      if fault.Some? {
        return fault.value, false, hushed;
      }
      status := if k in tree then FX_SUCCESS else FX_NOT_FOUND;
      directory := k in tree && tree[k].directory;
    }

    /** fx_file_rename and fx_directory_rename. */
    method FxRename(site: Site, directory: bool, a: Key, b: Key) returns (status: FxStatus, ghost hushed: bool)
      requires Recorded()
      modifies this`log, this`silent, this`tree
      ensures Recorded() && log == old(log) + [site] && silent == old(silent) + Tag(site, hushed)
      ensures status.FX_SUCCESS? <==> CanMove(old(tree), directory, a, b) && faults(|old(log)|, site).None?
      ensures tree == if status.FX_SUCCESS? then Move(old(tree), a, b) else old(tree)
      ensures faults(|old(log)|, site).Some? ==> status == faults(|old(log)|, site).value
      ensures hushed == Silent(faults(|old(log)|, site)) &&
        (FilexErrno(status) == EOK <==> status.FX_SUCCESS? || hushed)
    {
      var fault := Ask(site);
      hushed := Silent(fault);
      if fault.Some? {
        return fault.value, hushed;
      } else if a !in tree {
        return FX_NOT_FOUND, hushed;
      } else if tree[a].directory != directory {
        return if directory then FX_NOT_DIRECTORY else FX_NOT_A_FILE, hushed;
      } else if a != b && b in tree {
        return FX_ALREADY_CREATED, hushed;
      } else if !HasParent(tree, b) {
        return FX_INVALID_PATH, hushed;
      }
      tree := Move(tree, a, b);
      status := FX_SUCCESS;
    }

    /** fx_file_delete and fx_directory_delete; a directory must be empty. */
    method FxDelete(site: Site, directory: bool, k: Key) returns (status: FxStatus, ghost hushed: bool)
      requires Recorded()
      modifies this`log, this`silent, this`tree
      ensures Recorded() && log == old(log) + [site] && silent == old(silent) + Tag(site, hushed)
      ensures status.FX_SUCCESS? <==> CanDelete(old(tree), directory, k) && faults(|old(log)|, site).None?
      ensures tree == if status.FX_SUCCESS? then old(tree) - {k} else old(tree)
      ensures faults(|old(log)|, site).Some? ==> status == faults(|old(log)|, site).value
      ensures hushed == Silent(faults(|old(log)|, site)) &&
        (FilexErrno(status) == EOK <==> status.FX_SUCCESS? || hushed)
    {
      var fault := Ask(site);
      hushed := Silent(fault);
      if fault.Some? {
        return fault.value, hushed;
      } else if k !in tree {
        return FX_NOT_FOUND, hushed;
      } else if tree[k].directory != directory {
        return if directory then FX_NOT_DIRECTORY else FX_NOT_A_FILE, hushed;
      } else if HasChildren(tree, k) {
        return FX_DIR_NOT_EMPTY, hushed;
      }
      tree := tree - {k};
      status := FX_SUCCESS;
    }

    /** fx_media_flush and fx_directory_default_set, which do not change names. */
    method FxOther(site: Site) returns (status: FxStatus, ghost hushed: bool)
      requires Recorded()
      modifies this`log, this`silent
      ensures Recorded() && log == old(log) + [site] && silent == old(silent) + Tag(site, hushed)
      ensures FilexErrno(status) == EOK <==> status.FX_SUCCESS? || hushed
      ensures Works(site) ==> status.FX_SUCCESS?
      ensures forall e :: Fails(site, e) ==> FilexErrno(status) == e
    {
      var fault := Ask(site);
      hushed := Silent(fault);
      status := if fault.Some? then fault.value else FX_SUCCESS;
    }

    /** The scan of a directory past "." and ".."; FX_NO_MORE_ENTRIES means empty.
        If the default directory was not set, some other directory is scanned. */
    method FxScan(k: Key, set': bool) returns (status: FxStatus)
      requires Recorded()
      modifies this`log, this`silent
      ensures Recorded() && log == old(log) + [Scan] && Only(old(silent), silent, {Scan})
      ensures set' && Scan !in silent && ScanIsOver(status) ==> !HasChildren(tree, k)
      ensures ChecksWork() && set' && (HasChildren(tree, k) ==> ScanLies()) ==> ScanIsOver(status)
      ensures Works(Scan) && set' ==> status == if HasChildren(tree, k) then FX_SUCCESS else FX_NO_MORE_ENTRIES
      ensures forall e :: Fails(Scan, e) ==> FilexErrno(status) == e
    {
      var fault := Ask(Scan);
      if fault.Some? {
        return fault.value;
      }
      status := if (if set' then HasChildren(tree, k) else stray(|log|)) then FX_SUCCESS else FX_NO_MORE_ENTRIES;
    }

    // ----- The helpers of _rename

    /** information_unlocked on a canonical path.  A silent failure is taken for an
        existing file. */
    method Information(site: Site, path: string) returns (error: Errno, directory: bool, ghost hushed: bool)
      requires Recorded() && Canonical(path) && |path| < MAXIMUM_PATH
      modifies this`log, this`silent
      ensures Recorded() && silent == old(silent) + Tag(site, hushed)
      ensures hushed ==> error == EOK && !directory
      ensures error == EOK && !hushed && |KeyOf(path)| >= 2 ==>
        KeyOf(path) in tree && directory == tree[KeyOf(path)].directory
      ensures Works(site) && Resolve(path, mounted).Ok? && Resolve(path, mounted).value.Local? ==>
        !hushed && error == if KeyOf(path) in tree then EOK else ENOENT
      ensures Misses(site) && Resolve(path, mounted).Ok? && Resolve(path, mounted).value.Local? ==> error == ENOENT
      ensures Resolve(path, mounted).Ok? && !Resolve(path, mounted).value.Local? ==> error == EOK
      ensures Resolve(path, mounted).Ok? && Resolve(path, mounted).value.Local? ==>
        forall e :: Fails(site, e) ==> error == e
    {
      NormalizeIsIdempotent(cwd, path);
      directory, hushed := true, false;
      match Resolve(path, mounted) {
        case Err(e) =>
          ResolveErrs(path, mounted);
          error := e;
        case Ok(r) =>
          if !r.Local? {
            RootKeys(path, mounted);
            return EOK, true, false;
          }
          var status, found;
          status, found, hushed := FxDirectoryInformation(site, KeyOf(path));
          error := FilexErrno(status);
          directory := if status.FX_SUCCESS? then found else false;
      }
    }

    /** rename_entry_unlocked between two entries of one mount. */
    method RenameEntry(site: Site, directory: bool, from: string, to: string, ghost m: Mount)
      returns (error: Errno, ghost done: bool, ghost hushed: bool)
      requires Recorded()
      requires Resolve(from, mounted) == Ok(Local(m)) && Resolve(to, mounted) == Ok(Local(m))
      modifies this`log, this`silent, this`tree
      ensures Recorded() && log == old(log) + [site] && silent == old(silent) + Tag(site, hushed)
      ensures done <==> CanMove(old(tree), directory, KeyOf(from), KeyOf(to)) && faults(|old(log)|, site).None?
      ensures tree == if done then Move(old(tree), KeyOf(from), KeyOf(to)) else old(tree)
      ensures Tells(error, faults(|old(log)|, site))
      ensures hushed == Silent(faults(|old(log)|, site)) && (error == EOK <==> done || hushed)
    {
      var r := Resolve(from, mounted);
      var q := Resolve(to, mounted);
      if r.Err? {
        assert false;
      } else if q.Err? {
        assert false;
      } else if r.value.mount != q.value.mount {
        assert false;
      }
      var status;
      status, hushed := FxRename(site, directory, KeyOf(from), KeyOf(to));
      done := status.FX_SUCCESS?;
      error := FilexErrno(status);
    }

    /** delete_entry_unlocked. */
    method DeleteEntry(site: Site, directory: bool, path: string, ghost m: Mount)
      returns (error: Errno, ghost done: bool, ghost hushed: bool)
      requires Recorded() && Resolve(path, mounted) == Ok(Local(m))
      modifies this`log, this`silent, this`tree
      ensures Recorded() && log == old(log) + [site] && silent == old(silent) + Tag(site, hushed)
      ensures done <==> CanDelete(old(tree), directory, KeyOf(path)) && faults(|old(log)|, site).None?
      ensures tree == if done then old(tree) - {KeyOf(path)} else old(tree)
      ensures Tells(error, faults(|old(log)|, site))
      ensures hushed == Silent(faults(|old(log)|, site)) && (error == EOK <==> done || hushed)
    {
      var status;
      status, hushed := FxDelete(site, directory, KeyOf(path));
      done := status.FX_SUCCESS?;
      error := FilexErrno(status);
    }

    /** The scan for an entry other than "." and "..". */
    method ScanForEntries(path: string, set': bool) returns (error: Errno)
      requires Recorded()
      modifies this`log, this`silent
      ensures Recorded() && Only(old(silent), silent, {Scan})
      ensures error == EOK && set' && Scan !in silent ==> !HasChildren(tree, KeyOf(path))
      ensures ChecksWork() && set' && (HasChildren(tree, KeyOf(path)) ==> ScanLies()) ==> error == EOK
      ensures Works(Scan) && set' ==> error == if HasChildren(tree, KeyOf(path)) then ENOTEMPTY else EOK
      ensures forall e :: Fails(Scan, e) ==> error == e
    {
      var status := FxScan(KeyOf(path), set');
      error := if status.FX_NO_MORE_ENTRIES? then EOK
               else if status.FX_SUCCESS? then ENOTEMPTY
               else FilexErrno(status);
    }

    /** require_empty_directory_unlocked: the default directory is set, scanned
        and reset; a scan error wins over a reset error. */
    method RequireEmptyDirectory(path: string) returns (error: Errno)
      requires Recorded()
      modifies this`log, this`silent
      ensures Recorded() && Only(old(silent), silent, {SetDefault, Scan, ResetDefault})
      ensures error == EOK && SetDefault !in silent && Scan !in silent ==> !HasChildren(tree, KeyOf(path))
      ensures ChecksWork() && (HasChildren(tree, KeyOf(path)) ==> ScanLies()) ==> error == EOK
      ensures AllChecksWork() ==> error == if HasChildren(tree, KeyOf(path)) then ENOTEMPTY else EOK
      ensures forall e :: Fails(SetDefault, e) || (Works(SetDefault) && Fails(Scan, e)) ==> error == e
      ensures forall e :: Fails(ResetDefault, e) ==>
        error != EOK && (Works(SetDefault) && Works(Scan) && !HasChildren(tree, KeyOf(path)) ==> error == e)
      ensures error == EOK ==> forall e :: !Fails(Scan, e)
    {
      var status, reset;
      ghost var hushed;
      status, hushed := FxOther(SetDefault);
      error := FilexErrno(status);
      if error == EOK {
        error := ScanForEntries(path, status.FX_SUCCESS?);
      }
      reset, hushed := FxOther(ResetDefault);
      error := if error != EOK then error else FilexErrno(reset);
    }

    /** One probe of find_rename_backup_unlocked. */
    method ProbeBackup(m: Mount, sequence: nat) returns (error: Errno)
      requires Recorded() && m in mounted
      modifies this`log, this`silent
      ensures Recorded() && Only(old(silent), silent, {BackupInformation})
      ensures Works(BackupInformation) ==> error == if BackupTaken(m, tree, sequence) then EOK else ENOENT
      ensures Misses(BackupInformation) ==> error == ENOENT
    {
      BackupKey(m, sequence);
      BackupResolves(m, sequence, mounted);
      var directory;
      ghost var hushed;
      error, directory, hushed := Information(BackupInformation, BackupPath(m, sequence));
    }

    /** The counter wraps at 2^32, the number probed at 2^20. */
    method NextCandidate(ghost base: nat, ghost attempt: nat) returns (sequence: nat)
      requires backupSequence == (base + attempt) % SEQUENCE_LIMIT
      modifies this`backupSequence
      ensures sequence == Candidate(base, attempt) && backupSequence == (base + attempt + 1) % SEQUENCE_LIMIT
    {
      SequenceWraps(base, attempt);
      sequence := backupSequence % SEQUENCE_MASK;
      backupSequence := (backupSequence + 1) % SEQUENCE_LIMIT;
    }

    method ProbeNext(m: Mount, ghost base: nat, ghost attempt: nat) returns (error: Errno, sequence: nat)
      requires Recorded() && m in mounted && backupSequence == (base + attempt) % SEQUENCE_LIMIT
      modifies this`log, this`silent, this`backupSequence
      ensures Recorded() && Only(old(silent), silent, {BackupInformation})
      ensures sequence == Candidate(base, attempt) && backupSequence == (base + attempt + 1) % SEQUENCE_LIMIT
      ensures Works(BackupInformation) ==> error == if BackupTaken(m, tree, sequence) then EOK else ENOENT
      ensures Misses(BackupInformation) ==> error == ENOENT
    {
      sequence := NextCandidate(base, attempt);
      error := ProbeBackup(m, sequence);
    }

    /** find_rename_backup_unlocked: up to 256 sequence numbers are probed; the
        result is the number whose BackupPath is used. */
    method FindRenameBackup(m: Mount) returns (error: Errno, sequence: nat)
      requires Recorded() && m in mounted && backupSequence < SEQUENCE_LIMIT
      modifies this`log, this`silent, this`backupSequence
      ensures Recorded() && Only(old(silent), silent, {BackupInformation})
      ensures backupSequence < SEQUENCE_LIMIT
      ensures Searched(m, tree, old(backupSequence),
                       if error == EOK then Some(KeyOf(BackupPath(m, sequence))) else None)
    {
      sequence := 0;
      var attempt := 0;
      ghost var t := tree;
      while attempt < 256
        invariant 0 <= attempt <= 256 && backupSequence == (old(backupSequence) + attempt) % SEQUENCE_LIMIT
        invariant Recorded() && Only(old(silent), silent, {BackupInformation})
        invariant Misses(BackupInformation) ==> attempt == 0
        invariant Works(BackupInformation) ==> AllTaken(m, t, old(backupSequence), attempt)
      {
        error, sequence := ProbeNext(m, old(backupSequence), attempt);
        if error == ENOENT {
          BackupKey(m, sequence);
          return EOK, sequence;
        }
        if error != EOK {
          return;
        }
        if Works(BackupInformation) {
          OneMoreTaken(m, t, old(backupSequence), attempt);
        }
        attempt := attempt + 1;
      }
      error := ENOSPC;
    }

    // ----- The checks of _rename, which change no name

    /** resolve_path_unlocked. */
    method ResolvePath(path: string) returns (error: Errno, normalized: string, resolved: Resolved)
      requires PathsOk(descriptors, cwd) && '\0' !in path
      ensures error == EOK <==> Normalize(cwd, path).Ok? && Resolve(Normalize(cwd, path).value, mounted).Ok?
      ensures error == PathRefusal(cwd, mounted, path)
      ensures error == EOK ==>
        && Normalize(cwd, path) == Ok(normalized) && Canonical(normalized) && |normalized| < MAXIMUM_PATH
        && Resolve(normalized, mounted) == Ok(resolved)
        && (resolved.Local? ==>
              resolved.mount in mounted && |KeyOf(normalized)| >= 2 && KeyOf(normalized)[0] == MountKey(resolved.mount))
    {
      normalized, resolved := "", VirtualRoot;
      var text := Normalize(cwd, path);
      if text.Err? {
        return text.errno, normalized, resolved;
      }
      normalized := text.value;
      NormalizeIsCanonical(cwd, path);
      var place := Resolve(normalized, mounted);
      if place.Err? {
        ResolveErrs(normalized, mounted);
        return place.errno, normalized, resolved;
      }
      error, resolved := EOK, place.value;
      if resolved.Local? {
        LocalKey(normalized, mounted);
      }
    }

    method Examine(oldPath: string, newPath: string) returns (error: Errno, plan: Plan)
      requires Recorded() && PathsOk(descriptors, cwd) && '\0' !in oldPath && '\0' !in newPath
      modifies this`log, this`silent
      ensures Recorded() && Only(old(silent), silent, {SourceInformation})
      ensures error == EOK ==> ProperNames(plan) && OnVolume(plan, mounted)
      ensures error == EOK ==> Normalize(cwd, oldPath) == Ok(plan.source) && Normalize(cwd, newPath) == Ok(plan.target)
      ensures error == EOK && SourceInformation !in silent ==> PlanOk(tree, plan)
      ensures Works(SourceInformation) ==> forall p: Plan ::
        PlanOk(tree, p) && OnVolume(p, mounted) && Normalize(cwd, oldPath) == Ok(p.source) &&
          Normalize(cwd, newPath) == Ok(p.target)
        ==> error == EOK && plan == p
      ensures Works(SourceInformation) ==> error == NamesRefusal(tree, cwd, mounted, oldPath, newPath)
      ensures Works(SourceInformation) && error == EOK ==> plan == PlanOf(tree, cwd, mounted, oldPath, newPath)
      ensures error == EOK ==> forall e :: !Fails(SourceInformation, e)
    {
      plan := Plan("", "", Flash, false);
      var source, target, r, q, directory;
      ghost var hushed;
      error, source, r := ResolvePath(oldPath);
      if error != EOK {
        return;
      }
      error, target, q := ResolvePath(newPath);
      if error != EOK {
        return;
      }
      error, directory, hushed := Information(SourceInformation, source);
      if error != EOK {
        return;
      }
      if !r.Local? || !q.Local? {
        return EBUSY, plan;
      }
      if r.mount != q.mount {
        return EXDEV, plan;
      }
      plan := Plan(source, target, r.mount, directory);
    }

    method CheckMigrations(plan: Plan) returns (error: Errno)
      ensures error == EOK <==> !IntoItself(plan) && MigrationsFit(plan, descriptors, cwd)
      ensures error == MigrationRefusal(plan, descriptors, cwd)
    {
      if IntoItself(plan) {
        return EINVAL;
      }
      for i := 0 to |descriptors|
        invariant forall j :: 0 <= j < i && descriptors[j].inUse ==>
          |Migrate(descriptors[j].path, plan.source, plan.target, plan.directory)| < MAXIMUM_PATH
      {
        if descriptors[i].inUse &&
           |Migrate(descriptors[i].path, plan.source, plan.target, plan.directory)| >= MAXIMUM_PATH {
          return ENAMETOOLONG;
        }
      }
      if plan.directory && |Migrate(cwd, plan.source, plan.target, true)| >= MAXIMUM_PATH {
        return ENAMETOOLONG;
      }
      error := EOK;
    }

    method AnyDescriptorAt(prefix: string, descendants: bool, onlyOpen: bool) returns (found: bool)
      ensures found <==>
        exists i :: 0 <= i < |descriptors| && descriptors[i].inUse && (onlyOpen ==> descriptors[i].open) &&
                    HasPrefix(descriptors[i].path, prefix, descendants)
    {
      for i := 0 to |descriptors|
        invariant forall j :: 0 <= j < i && descriptors[j].inUse && (onlyOpen ==> descriptors[j].open) ==>
          !HasPrefix(descriptors[j].path, prefix, descendants)
      {
        if descriptors[i].inUse && (!onlyOpen || descriptors[i].open) &&
           HasPrefix(descriptors[i].path, prefix, descendants) {
          return true;
        }
      }
      found := false;
    }

    method CheckDestination(plan: Plan) returns (error: Errno, present: bool)
      requires Recorded() && ProperNames(plan) && OnVolume(plan, mounted)
      modifies this`log, this`silent
      ensures Recorded() && Only(old(silent), silent, {TargetInformation})
      ensures error == EOK && present ==> plan.SpellingChanged() && (plan.directory ==> plan.B() in tree)
      ensures error == EOK && present && TargetInformation !in silent ==>
        plan.B() in tree && tree[plan.B()].directory == plan.directory
      ensures error == EOK && present && plan.A() != plan.B() ==> Unoccupied(plan, descriptors, cwd)
      ensures Works(TargetInformation) && (plan.B() in tree ==> tree[plan.B()].directory == plan.directory) &&
              (plan.B() in tree && plan.A() != plan.B() ==> Unoccupied(plan, descriptors, cwd)) ==>
                error == EOK && present == Replaces(tree, plan)
      ensures Works(TargetInformation) ==> error == DestinationRefusal(tree, plan, descriptors, cwd)
      ensures plan.SpellingChanged() ==> forall e :: Fails(TargetInformation, e) ==>
        !present && error == if e == ENOENT then EOK else e
    {
      present := false;
      if !plan.SpellingChanged() {
        return EOK, false;
      }
      var destinationError, directory;
      ghost var hushed;
      destinationError, directory, hushed := Information(TargetInformation, plan.target);
      if destinationError == ENOENT {
        return EOK, false;
      }
      if destinationError != EOK {
        return destinationError, false;
      }
      present := true;
      ExactPrefixIsEquality(plan.source, plan.target);
      var same := HasPrefix(plan.source, plan.target, false);
      if plan.directory != directory {
        error := if plan.directory then ENOTDIR else EISDIR;
      } else if !same && plan.directory && HasPrefix(cwd, plan.target, true) {
        error := EBUSY;
      } else {
        var occupied := AnyDescriptorAt(plan.target, directory, false);
        error := if !same && occupied then EBUSY else EOK;
      }
    }

    /** A working scan of k ends at once. */
    ghost predicate TakenForEmpty(t: Tree, k: Key) { HasChildren(t, k) ==> ScanLies() }

    /** An open descriptor is at the source or, in a directory, below it. */
    predicate SourceIsOpen(plan: Plan, ds: seq<Descriptor>) {
      exists i :: 0 <= i < |ds| && ds[i].inUse && ds[i].open && HasPrefix(ds[i].path, plan.source, plan.directory)
    }

    /** The emptiness check and the flush have not failed with an error. */
    ghost predicate EmptyAndFlushed(plan: Plan, present: bool, ds: seq<Descriptor>) {
      forall e ::
        && (present && plan.A() != plan.B() && plan.directory ==>
              !Fails(SetDefault, e) && !Fails(Scan, e) && !Fails(ResetDefault, e))
        && (plan.SpellingChanged() && SourceIsOpen(plan, ds) ==> !Fails(Flush, e))
    }

    /** No check has failed with an error, but for a destination said not to exist. */
    ghost predicate Heeded(plan: Plan, present: bool, ds: seq<Descriptor>) {
      && EmptyAndFlushed(plan, present, ds)
      && forall e ::
        !Fails(SourceInformation, e) && (plan.SpellingChanged() && e != ENOENT ==> !Fails(TargetInformation, e))
    }

    /** The emptiness check of a directory to be replaced and the flush of open
        source handles. */
    method CheckEmptyAndFlush(plan: Plan, present: bool) returns (error: Errno)
      requires Recorded() && ProperNames(plan)
      modifies this`log, this`silent
      ensures Recorded() && Only(old(silent), silent, {SetDefault, Scan, ResetDefault, Flush})
      ensures error == EOK && SetDefault !in silent && Scan !in silent ==>
        present && plan.A() != plan.B() && plan.directory ==> !HasChildren(tree, plan.B())
      ensures ChecksWork() && (present && plan.A() != plan.B() && plan.directory ==> TakenForEmpty(tree, plan.B())) ==>
        error == EOK
      ensures AllChecksWork() && present == Replaces(tree, plan) ==> error == ContentsRefusal(tree, plan)
      ensures error == EOK ==> EmptyAndFlushed(plan, present, descriptors)
      ensures (present ==> plan.A() == plan.B() || !plan.directory) ==>
        forall e :: Fails(Flush, e) ==>
          error == if plan.SpellingChanged() && SourceIsOpen(plan, descriptors) then e else EOK
    {
      error := EOK;
      ExactPrefixIsEquality(plan.source, plan.target);
      if present && !HasPrefix(plan.source, plan.target, false) && plan.directory {
        error := RequireEmptyDirectory(plan.target);
      }
      if error == EOK && plan.SpellingChanged() {
        var sourceIsOpen := AnyDescriptorAt(plan.source, plan.directory, true);
        if sourceIsOpen {
          var status;
          ghost var hushed;
          status, hushed := FxOther(Flush);
          error := FilexErrno(status);
        }
      }
    }

    /** All checks of the destination. */
    method CheckTarget(plan: Plan) returns (error: Errno, present: bool)
      requires Recorded() && ProperNames(plan) && OnVolume(plan, mounted)
      modifies this`log, this`silent
      ensures Recorded() && Only(old(silent), silent, CHECKS - {SourceInformation} + {ResetDefault, Flush})
      ensures error == EOK && present ==> plan.SpellingChanged() && (plan.directory ==> plan.B() in tree)
      ensures error == EOK && present && CHECKS !! silent ==>
        && plan.B() in tree && tree[plan.B()].directory == plan.directory
        && (plan.A() != plan.B() && plan.directory ==> !HasChildren(tree, plan.B()))
      ensures error == EOK && present && plan.A() != plan.B() ==> Unoccupied(plan, descriptors, cwd)
      ensures ChecksWork() && (plan.B() in tree ==> tree[plan.B()].directory == plan.directory) &&
              (plan.B() in tree && plan.A() != plan.B() ==>
                 Unoccupied(plan, descriptors, cwd) && (plan.directory ==> TakenForEmpty(tree, plan.B()))) ==>
                error == EOK && present == Replaces(tree, plan)
      ensures AllChecksWork() ==> error == TargetRefusal(tree, plan, descriptors, cwd)
      ensures error == EOK ==> EmptyAndFlushed(plan, present, descriptors) && forall e ::
        plan.SpellingChanged() && e != ENOENT ==> !Fails(TargetInformation, e)
    {
      error, present := CheckDestination(plan);
      if error == EOK {
        error := CheckEmptyAndFlush(plan, present);
      }
    }

    /** A rename that working checks let through. */
    ghost predicate Acceptable(p: Plan, t: Tree, ds: seq<Descriptor>, dir: string, oldPath: string, newPath: string) {
      && Normalize(dir, oldPath) == Ok(p.source) && Normalize(dir, newPath) == Ok(p.target)
      && PlanOk(t, p) && OnVolume(p, mounted) && !IntoItself(p) && MigrationsFit(p, ds, dir)
      && (p.B() in t ==> t[p.B()].directory == p.directory)
      && (p.B() in t && p.A() != p.B() ==> Unoccupied(p, ds, dir) && (p.directory ==> TakenForEmpty(t, p.B())))
    }

    /** The checks, in the order of the source. */
    method Prepare(oldPath: string, newPath: string) returns (error: Errno, plan: Plan, present: bool)
      requires Recorded() && PathsOk(descriptors, cwd) && '\0' !in oldPath && '\0' !in newPath
      modifies this`log, this`silent
      ensures Recorded() && Only(old(silent), silent, CHECKS + {ResetDefault, Flush})
      ensures error == EOK ==> Normalize(cwd, oldPath) == Ok(plan.source) && Normalize(cwd, newPath) == Ok(plan.target)
      ensures error == EOK ==> Guarded(tree, plan, present, mounted) && MigrationsFit(plan, descriptors, cwd)
      ensures error == EOK && Backed(JobOf(plan, present)) ==> Unoccupied(plan, descriptors, cwd)
      ensures error == EOK && CHECKS !! silent ==> PlanOk(tree, plan) && Sound(tree, JobOf(plan, present))
      ensures ChecksWork() ==> forall p: Plan :: Acceptable(p, tree, descriptors, cwd, oldPath, newPath) ==>
        error == EOK && plan == p && present == Replaces(tree, p)
      ensures AllChecksWork() ==> error == Refusal(tree, descriptors, cwd, mounted, oldPath, newPath)
      ensures error == EOK ==> Heeded(plan, present, descriptors)
    {
      present := false;
      error, plan := Examine(oldPath, newPath);
      if error != EOK {
        return;
      }
      error := CheckMigrations(plan);
      if error != EOK {
        return;
      }
      NotIntoItself(plan);
      error, present := CheckTarget(plan);
    }

    // ----- Backup, rename, restore, delete

    /** Renames the destination to a backup name that a probe did not find. */
    method SetDestinationAside(plan: Plan)
      returns (error: Errno, backup: string, ghost found: Option<Key>, ghost fault: Option<Failure>, ghost probed: bool)
      requires Recorded() && OnVolume(plan, mounted) && backupSequence < SEQUENCE_LIMIT
      modifies this`log, this`silent, this`tree, this`backupSequence
      ensures Recorded() && backupSequence < SEQUENCE_LIMIT && Meets(AsideRename, fault)
      ensures silent == old(silent) + Tag(BackupInformation, probed) + Tag(AsideRename, found.Some? && Silent(fault))
      ensures Searched(plan.mount, old(tree), old(backupSequence), found)
      ensures found.Some? ==> found.value == KeyOf(backup) && Resolve(backup, mounted) == Ok(Local(plan.mount))
      ensures tree == if Aside(old(tree), plan, found, fault) then Move(old(tree), plan.B(), found.value) else old(tree)
      ensures error == EOK <==> Aside(old(tree), plan, found, fault) || (found.Some? && Silent(fault))
      ensures found.Some? ==> Tells(error, fault)
    {
      var sequence;
      backup, found, fault := "", None, faults(0, AsideRename);
      ghost var before := silent;
      error, sequence := FindRenameBackup(plan.mount);
      probed := BackupInformation in silent;
      assert silent == before + Tag(BackupInformation, probed);
      if error == EOK {
        backup := BackupPath(plan.mount, sequence);
        found := Some(KeyOf(backup));
        BackupKey(plan.mount, sequence);
        BackupResolves(plan.mount, sequence, mounted);
        fault := faults(|log|, AsideRename);
        ghost var done, hushed;
        error, done, hushed := RenameEntry(AsideRename, plan.directory, plan.target, backup, plan.mount);
      }
    }

    /** The source rename. */
    method RenameSource(plan: Plan) returns (error: Errno, ghost fault: Option<Failure>)
      requires Recorded() && OnVolume(plan, mounted)
      requires WellFormed(tree) && (plan.directory && plan.A() != plan.B() ==> !(plan.A() <= plan.B()))
      modifies this`log, this`silent, this`tree
      ensures Recorded() && silent == old(silent) + Tag(SourceRename, Silent(fault)) && Meets(SourceRename, fault)
      ensures var moved := fault.None? && CanMove(old(tree), plan.directory, plan.A(), plan.B());
        && (error == EOK <==> moved || Silent(fault)) && (moved ==> NotBelow(plan.A(), plan.B()))
        && tree == if moved then Move(old(tree), plan.A(), plan.B()) else old(tree)
      ensures Tells(error, fault)
    {
      ghost var moved, hushed;
      fault := faults(|log|, SourceRename);
      error, moved, hushed := RenameEntry(SourceRename, plan.directory, plan.source, plan.target, plan.mount);
      if moved {
        SourceMoveIsLegal(old(tree), plan.directory, plan.A(), plan.B());
      }
    }

    /** The restore after a failed source rename. */
    method Restore(plan: Plan, backup: string, ghost t: Tree, ghost c: Course)
      returns (error: Errno, ghost c': Course, ghost fault: Option<Failure>)
      requires Recorded() && OnVolume(plan, mounted) && Resolve(backup, mounted) == Ok(Local(plan.mount))
      requires WellFormed(t) && |plan.B()| >= 2 && (plan.directory ==> plan.B() in t) && |c.backup| == 2
      requires c.backup == KeyOf(backup) && !c.moved && !c.restored && !c.deleted
      requires Legal(t, plan.A(), plan.B(), plan.directory, c) && tree == Final(t, plan.A(), plan.B(), c)
      modifies this`log, this`silent, this`tree
      ensures Recorded() && silent == old(silent) + Tag(RestoreRename, Silent(fault)) && Meets(RestoreRename, fault)
      ensures Legal(t, plan.A(), plan.B(), plan.directory, c') && tree == Final(t, plan.A(), plan.B(), c')
      ensures c' == c.(restored := fault.None? && CanMove(old(tree), plan.directory, c.backup, plan.B()))
      ensures Tells(error, fault) && (error == EOK <==> c'.restored || Silent(fault))
    {
      ghost var restored, hushed;
      fault := faults(|log|, RestoreRename);
      error, restored, hushed := RenameEntry(RestoreRename, plan.directory, backup, plan.target, plan.mount);
      if restored {
        RestoreIsLegal(t, plan.directory, plan.A(), plan.B(), c);
      }
      c' := c.(restored := restored);
    }

    /** The deletion of the backup after a source rename that succeeded, or is
        believed to have. */
    method DeleteBackup(plan: Plan, backup: string, ghost t: Tree, ghost c: Course)
      returns (error: Errno, ghost c': Course, ghost fault: Option<Failure>)
      requires Recorded() && Resolve(backup, mounted) == Ok(Local(plan.mount))
      requires WellFormed(t) && c.backup == KeyOf(backup) && !c.restored && !c.deleted
      requires Legal(t, plan.A(), plan.B(), plan.directory, c) && tree == Final(t, plan.A(), plan.B(), c)
      modifies this`log, this`silent, this`tree
      ensures Recorded() && silent == old(silent) + Tag(BackupDelete, Silent(fault)) && Meets(BackupDelete, fault)
      ensures Legal(t, plan.A(), plan.B(), plan.directory, c') && tree == Final(t, plan.A(), plan.B(), c')
      ensures c' == c.(deleted := fault.None? && CanDelete(old(tree), plan.directory, c.backup))
      ensures (error == EOK <==> c'.deleted || Silent(fault)) && Tells(error, fault)
    {
      ghost var deleted, hushed;
      fault := faults(|log|, BackupDelete);
      error, deleted, hushed := DeleteEntry(BackupDelete, plan.directory, backup, plan.mount);
      c' := c.(deleted := deleted);
    }

    /** What follows the source rename: the deletion of the backup if it is believed,
        else the restore; a restore error wins over the error of the rename. */
    method FollowUp(plan: Plan, backup: string, renamed: bool, renameError: Errno, ghost t: Tree, ghost c: Course)
      returns (error: Errno, ghost c': Course, ghost fault: Option<Failure>)
      requires Recorded() && Replaceable(t, plan, mounted) && Resolve(backup, mounted) == Ok(Local(plan.mount))
      requires WellFormed(t) && |c.backup| == 2 && c.backup == KeyOf(backup) && !c.restored && !c.deleted
      requires Legal(t, plan.A(), plan.B(), plan.directory, c) && tree == Final(t, plan.A(), plan.B(), c)
      requires (renamed <==> renameError == EOK) && (!renamed ==> !c.moved)
      modifies this`log, this`silent, this`tree
      ensures Recorded() && Meets(if renamed then BackupDelete else RestoreRename, fault)
      ensures silent == old(silent) + Tag(RestoreRename, !renamed && Silent(fault)) +
        Tag(BackupDelete, renamed && Silent(fault))
      ensures Legal(t, plan.A(), plan.B(), plan.directory, c') && tree == Final(t, plan.A(), plan.B(), c')
      ensures c' == if renamed then c.(deleted := fault.None? && CanDelete(old(tree), plan.directory, c.backup))
                    else c.(restored := fault.None? && CanMove(old(tree), plan.directory, c.backup, plan.B()))
      ensures error == EOK <==> renamed && (c'.deleted || Silent(fault))
      ensures renamed || Loud(fault) ==> Tells(error, fault)
      ensures !renamed && (c'.restored || Silent(fault)) ==> error == renameError
    {
      if renamed {
        error, c', fault := DeleteBackup(plan, backup, t, c);
      } else {
        var restoreError;
        restoreError, c', fault := Restore(plan, backup, t, c);
        error := if restoreError != EOK then restoreError else renameError;
      }
    }

    /** The source rename with the destination believed aside, its restoration after
        a failure, and the deletion of the backup. */
    method FinishReplacement(plan: Plan, backup: string, ghost t: Tree, ghost c: Course, ghost s0: Script)
      returns (error: Errno, renamed: bool, ghost play: Play, ghost s: Script)
      requires Recorded() && Replaceable(t, plan, mounted) && WellFormed(t)
      requires |c.backup| == 2 && Resolve(backup, mounted) == Ok(Local(plan.mount))
      requires c == Course(KeyOf(backup), c.aside, false, false, false)
      requires Legal(t, plan.A(), plan.B(), plan.directory, c) && tree == Final(t, plan.A(), plan.B(), c)
      requires Faced(s0)
      modifies this`log, this`silent, this`tree
      ensures Recorded() && Faced(s) && s.backup == s0.backup && s.aside == s0.aside
      ensures silent == old(silent) + Tag(SourceRename, play.hush.source) +
                        Tag(RestoreRename, !play.renamed && Silent(s.restore)) + Tag(BackupDelete, play.hush.delete)
      ensures Legal(t, plan.A(), plan.B(), plan.directory, play.course) &&
        tree == Final(t, plan.A(), plan.B(), play.course)
      ensures play == FinishPlay(t, JobOf(plan, true), c, Silent(s.aside), s) && (play.ok <==> error == EOK)
      ensures renamed == play.renamed && Concludes(play, s, error)
    {
      SourceIsWellFormed(t, plan.A(), plan.B(), plan.directory, c);
      ghost var source, fault, d;
      error, source := RenameSource(plan);
      renamed := error == EOK;
      d := c.(moved := source.None? && CanMove(AfterAside(t, plan.B(), c), plan.directory, plan.A(), plan.B()));
      error, d, fault := FollowUp(plan, backup, renamed, error, t, d);
      s := s0.(source := source);
      s := if renamed then s.(delete := fault) else s.(restore := fault);
      play := FinishPlay(t, JobOf(plan, true), c, Silent(s.aside), s);
      assert play.course == d;
    }

    /** The replacement once the destination is aside, or believed to be. */
    method Proceed(plan: Plan, backup: string, ghost t: Tree, ghost found: Option<Key>, ghost fault: Option<Failure>)
      returns (error: Errno, renamed: bool, ghost play: Play, ghost s: Script)
      requires Recorded() && Replaceable(t, plan, mounted) && WellFormed(t) && Meets(AsideRename, fault)
      requires found == Some(KeyOf(backup)) && |KeyOf(backup)| == 2 && Resolve(backup, mounted) == Ok(Local(plan.mount))
      requires tree == if Aside(t, plan, found, fault) then Move(t, plan.B(), found.value) else t
      requires Aside(t, plan, found, fault) || Silent(fault)
      modifies this`log, this`silent, this`tree
      ensures Recorded() && Faced(s) && s.backup == found && s.aside == fault
      ensures silent == old(silent) + Tag(SourceRename, play.hush.source) +
                        Tag(RestoreRename, !play.renamed && Silent(s.restore)) + Tag(BackupDelete, play.hush.delete)
      ensures play == ReplacePlay(t, JobOf(plan, true), s) && play.hush.aside == Silent(fault)
      ensures (play.ok <==> error == EOK) && renamed == play.renamed && Concludes(play, s, error)
      ensures Fits(t, plan, play.course) && tree == Final(t, plan.A(), plan.B(), play.course)
    {
      AsideFits(t, plan, found, fault);
      s := Script(found, fault, faults(0, SourceRename), faults(0, RestoreRename), faults(0, BackupDelete));
      error, renamed, play, s := FinishReplacement(plan, backup, t, AsideCourse(t, plan, found, fault), s);
    }

    /** The replacement of a destination that was found present. */
    method Replace(plan: Plan)
      returns (error: Errno, renamed: bool, ghost play: Play, ghost s: Script, ghost p: Phase)
      requires Recorded() && WellFormed(tree) && Replaceable(tree, plan, mounted) && backupSequence < SEQUENCE_LIMIT
      modifies this`log, this`silent, this`tree, this`backupSequence
      ensures Recorded() && backupSequence < SEQUENCE_LIMIT && silent == old(silent) + Tags(p) && p.h == play.hush
      ensures Faced(s) && Searched(plan.mount, old(tree), old(backupSequence), s.backup)
      ensures play == ReplacePlay(old(tree), JobOf(plan, true), s)
      ensures (play.ok <==> error == EOK) && renamed == play.renamed
      ensures Reported(old(tree), JobOf(plan, true), s, error)
      ensures Fits(old(tree), plan, play.course) && tree == Final(old(tree), plan.A(), plan.B(), play.course)
    {
      var backup;
      ghost var found, fault, probed;
      error, backup, found, fault, probed := SetDestinationAside(plan);
      if error == EOK {
        error, renamed, play, s := Proceed(plan, backup, old(tree), found, fault);
        p := Phase(probed, play.hush, !play.renamed && Silent(s.restore));
        TagsAddUp(old(silent), p);
      } else {
        s := Script(found, fault, faults(0, SourceRename), faults(0, RestoreRename), faults(0, BackupDelete));
        renamed, play, p := false, Play(IDLE, QUIET, false, false), Phase(probed, QUIET, false);
        FewTags(old(silent), probed, false, false);
      }
    }

    /** Everything _rename does to the volume once its checks have passed. */
    method Execute(plan: Plan, present: bool)
      returns (error: Errno, renamed: bool, ghost play: Play, ghost s: Script, ghost p: Phase)
      requires Recorded() && WellFormed(tree) && Guarded(tree, plan, present, mounted)
      requires backupSequence < SEQUENCE_LIMIT
      modifies this`log, this`silent, this`tree, this`backupSequence
      ensures Recorded() && backupSequence < SEQUENCE_LIMIT && silent == old(silent) + Tags(p) && p.h == play.hush
      ensures Faced(s) && (Backed(JobOf(plan, present)) ==>
        Searched(plan.mount, old(tree), old(backupSequence), s.backup))
      ensures play == Played(old(tree), JobOf(plan, present), s) && (play.ok <==> error == EOK) &&
        play.renamed == renamed
      ensures Reported(old(tree), JobOf(plan, present), s, error)
      ensures Fits(old(tree), plan, play.course) && tree == Final(old(tree), plan.A(), plan.B(), play.course)
    {
      ExactPrefixIsEquality(plan.source, plan.target);
      s := Script(None, faults(0, AsideRename), faults(0, SourceRename), faults(0, RestoreRename),
        faults(0, BackupDelete));
      error, renamed, play, p := EOK, false, Play(IDLE, QUIET, false, true), Phase(false, QUIET, false);
      FewTags(silent, false, false, false);
      if present && !HasPrefix(plan.source, plan.target, false) {
        error, renamed, play, s, p := Replace(plan);
      } else if plan.SpellingChanged() {
        ghost var fault;
        error, fault := RenameSource(plan);
        renamed, s := error == EOK, s.(source := fault);
        play := PlainPlay(old(tree), JobOf(plan, present), s);
        p := Phase(false, play.hush, false);
        FewTags(old(silent), false, false, Silent(fault));
      }
    }

    // ----- Migration and the whole call

    method MigratePaths(plan: Plan)
      modifies this`descriptors, this`cwd
      ensures Follows(plan, true, old(descriptors), descriptors, old(cwd), cwd)
    {
      for i := 0 to |descriptors|
        invariant |descriptors| == |old(descriptors)| && cwd == old(cwd)
        invariant forall j :: i <= j < |descriptors| ==> descriptors[j] == old(descriptors)[j]
        invariant forall j :: 0 <= j < i ==> descriptors[j] == MigratedDescriptor(old(descriptors)[j], plan)
      {
        if descriptors[i].inUse {
          var d := descriptors[i];
          descriptors := descriptors[i := d.(path := Migrate(d.path, plan.source, plan.target, plan.directory))];
        }
      }
      if plan.directory {
        cwd := Migrate(cwd, plan.source, plan.target, true);
      }
    }

    ghost function Now(): View
      reads this
    {
      View(tree, descriptors, cwd)
    }

    /** The volume phase and the migration. */
    method Act(plan: Plan, present: bool) returns (error: Errno, ghost run: Run)
      requires Recorded() && WellFormed(tree) && backupSequence < SEQUENCE_LIMIT && VOLUME_CALLS !! silent
      requires Guarded(tree, plan, present, mounted) && MigrationsFit(plan, descriptors, cwd)
      requires Backed(JobOf(plan, present)) ==> Unoccupied(plan, descriptors, cwd)
      requires CHECKS !! silent ==> PlanOk(tree, plan) && Sound(tree, JobOf(plan, present))
      modifies this`log, this`silent, this`tree, this`backupSequence, this`descriptors, this`cwd
      ensures Recorded() && backupSequence < SEQUENCE_LIMIT && run.prepared && run.plan == plan &&
        run.present == present
      ensures Performed(run, old(Now()), Now(), error, silent, mounted)
      ensures Faced(run.script)
      ensures Backed(run.Job()) ==> Searched(plan.mount, old(tree), old(backupSequence), run.script.backup)
      ensures Reported(old(tree), run.Job(), run.script, error)
    {
      var renamed;
      ghost var play, s, p;
      ghost var before := silent;
      error, renamed, play, s, p := Execute(plan, present);
      TagsAreRead(before, p);
      if renamed {
        MigratePaths(plan);
      }
      run := Run(true, plan, present, s, play.course, renamed);
    }

    /** An acceptable rename for which there is room, of nothing that has children
        to nothing but what is taken for it. */
    ghost predicate Allowed(p: Plan, v: View, sequence: nat, oldPath: string, newPath: string) {
      && Acceptable(p, v.tree, v.descriptors, v.cwd, oldPath, newPath) && HasRoom(v.tree, p, sequence)
      && (p.B() in v.tree && p.A() != p.B() && p.directory ==> !HasChildren(v.tree, p.B()))
    }

    /** Every acceptable rename passes the checks. */
    ghost predicate Passes(v: View, oldPath: string, newPath: string, run: Run) {
      forall p: Plan :: Acceptable(p, v.tree, v.descriptors, v.cwd, oldPath, newPath) ==>
        run.prepared && run.plan == p && run.present == Replaces(v.tree, p)
    }

    /** Exactly the renames that there is a reason to refuse are refused, for that reason. */
    ghost predicate Refuses(v: View, oldPath: string, newPath: string, error: Errno, run: Run) {
      var why := Refusal(v.tree, v.descriptors, v.cwd, mounted, oldPath, newPath);
      (run.prepared <==> why == EOK) && (!run.prepared ==> error == why)
    }

    ghost predicate Succeeds(v: View, sequence: nat, oldPath: string, newPath: string, error: Errno) {
      forall p: Plan :: Allowed(p, v, sequence, oldPath, newPath) ==> error == EOK
    }

    lemma AllowedIsFeasible(p: Plan, v: View, sequence: nat, oldPath: string, newPath: string, backup: Option<Key>)
      requires Allowed(p, v, sequence, oldPath, newPath) && Works(BackupInformation)
      requires Backed(JobOf(p, Replaces(v.tree, p))) ==> Searched(p.mount, v.tree, sequence, backup)
      ensures Feasible(v.tree, p, Replaces(v.tree, p), backup)
    {
      NotIntoItself(p);
    }

    /** If nothing but a source rename fails, and that silently, every allowed rename
        returns 0. */
    lemma SmoothSucceeds(run: Run, v: View, v': View, error: Errno, silent: set<Site>,
                         sequence: nat, oldPath: string, newPath: string)
      requires Smooth() && WellFormed(v.tree) && Performed(run, v, v', error, silent, mounted)
      requires Passes(v, oldPath, newPath, run)
      requires run.prepared ==> Faced(run.script)
      requires run.prepared && Backed(run.Job()) ==> Searched(run.plan.mount, v.tree, sequence, run.script.backup)
      ensures Succeeds(v, sequence, oldPath, newPath, error)
    {
      SmoothWorks();
      forall p | Allowed(p, v, sequence, oldPath, newPath)
        ensures error == EOK
      {
        AllowedIsFeasible(p, v, sequence, oldPath, newPath, run.script.backup);
        GentlePlaySucceeds(v.tree, run.Job(), run.script);
      }
    }

    /** The steps of _rename with their exact effect on volume and paths. */
    method RenameSteps(oldPath: string, newPath: string) returns (error: Errno, ghost run: Run)
      requires Valid() && '\0' !in oldPath && '\0' !in newPath
      modifies this
      ensures Recorded() && earlier == old(log) && backupSequence < SEQUENCE_LIMIT
      ensures run.prepared ==>
        Normalize(old(cwd), oldPath) == Ok(run.plan.source) && Normalize(old(cwd), newPath) == Ok(run.plan.target)
      ensures Performed(run, old(Now()), Now(), error, silent, mounted)
      ensures run.prepared ==> Faced(run.script)
      ensures run.prepared && Backed(run.Job()) ==>
        Searched(run.plan.mount, old(tree), old(backupSequence), run.script.backup)
      ensures run.prepared ==> Reported(old(tree), run.Job(), run.script, error)
      ensures ChecksWork() ==> Passes(old(Now()), oldPath, newPath, run)
      ensures AllChecksWork() ==> Refuses(old(Now()), oldPath, newPath, error, run)
      ensures run.prepared ==> Heeded(run.plan, run.present, old(descriptors))
    {
      earlier, silent := log, {};
      var present;
      var plan: Plan;
      error, plan, present := Prepare(oldPath, newPath);
      run := Run(false, plan, present, Script(None, None, None, None, None), IDLE, false);
      if error == EOK {
        error, run := Act(plan, present);
      }
    }

    /** _rename.  The volume stays a tree and the paths stay canonical whatever
        fails and however it is reported; the lemmas about Performed say what else
        is kept, and exactly when. */
    method Rename(oldPath: string, newPath: string) returns (error: Errno, ghost run: Run)
      requires Valid() && '\0' !in oldPath && '\0' !in newPath
      modifies this
      ensures Valid() && earlier == old(log)
      ensures run.prepared ==>
        Normalize(old(cwd), oldPath) == Ok(run.plan.source) && Normalize(old(cwd), newPath) == Ok(run.plan.target)
      ensures Performed(run, old(Now()), Now(), error, silent, mounted)
      ensures CHECKS !! silent ==> WellInformed(run, old(tree))
      ensures run.prepared && WellInformed(run, old(tree)) ==>
        (Truthful(old(tree), run.Job(), tree, error, run.renamed) <==>
         BackupDelete !in silent && !SourceLost(run, silent))
      ensures WellInformed(run, old(tree)) && !SourceLost(run, silent) ==> PathsKept(old(Now()), Now())
      // what its volume calls met decides the rest
      ensures run.prepared ==> Faced(run.script)
      ensures run.prepared && Backed(run.Job()) ==>
        Searched(run.plan.mount, old(tree), old(backupSequence), run.script.backup)
      ensures run.prepared ==> Reported(old(tree), run.Job(), run.script, error)
      ensures ChecksWork() ==> Passes(old(Now()), oldPath, newPath, run)
      ensures AllChecksWork() ==> Refuses(old(Now()), oldPath, newPath, error, run)
      ensures run.prepared ==> Heeded(run.plan, run.present, old(descriptors))
      // if nothing but a source rename fails, and that silently
      ensures Smooth() ==> Succeeds(old(Now()), old(backupSequence), oldPath, newPath, error)
    {
      ghost var v := Now();
      error, run := RenameSteps(oldPath, newPath);
      RenameIsSafe(run, v, Now(), error, silent, mounted);
      if Smooth() {
        SmoothSucceeds(run, v, Now(), error, silent, old(backupSequence), oldPath, newPath);
      }
      if WellInformed(run, v.tree) {
        if run.prepared {
          RenameTellsTruthIff(run, v, Now(), error, silent, mounted);
        }
        if !SourceLost(run, silent) {
          RenameKeepsPaths(run, v, Now(), error, silent, mounted);
        }
      }
    }
  }
}
