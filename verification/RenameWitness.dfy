/**
 Three renames that go wrong, each because a call fails with a code that the error
 translation turns into success.
 */
module RenameWitness {
  import opened Errors
  import opened Wrappers
  import opened Paths
  import opened PathKeys
  import opened Volume
  import opened RenameOutcome
  import opened Filex
  import opened Mounts
  import opened RenamePlan
  import opened RenameCourse
  import opened RenameFate
  import opened RenameScript
  import opened FileSystem

  function TwoFiles(a: Key, b: Key): Tree { map[a := Entry(1, false), b := Entry(2, false)] }

  function FirstFile(a: Key): Tree { map[a := Entry(1, false)] }

  /** Two names of files. */
  predicate Different(m: Name, n: Name) {
    IsName(m) && IsName(n) && |m| < 200 && |n| < 200 && FoldName(m) != FoldName(n)
  }

  /** Neither of them is the first backup name. */
  predicate Suitable(m: Name, n: Name) {
    && Different(m, n)
    && FoldName(m) != FoldName(BackupName(0)) && FoldName(n) != FoldName(BackupName(0))
  }

  /** The renaming of one file of the flash volume onto another. */
  function PlanFor(m: Name, n: Name): Plan { Plan(EntryPath(Flash, m), EntryPath(Flash, n), Flash, false) }

  function FilesOf(p: Plan): Tree { TwoFiles(p.A(), p.B()) }

  /** The source is open. */
  function OpenOn(p: Plan): seq<Descriptor> { [Descriptor(true, p.source, true)] }

  function Before(p: Plan): View { View(FilesOf(p), OpenOn(p), "/") }

  lemma NamesAreProper(m: Name, n: Name)
    requires Different(m, n)
    ensures var p := PlanFor(m, n);
      && ProperNames(p) && OnVolume(p, {Flash}) && p.A() == ["FLASH", FoldName(m)] && p.B() == ["FLASH", FoldName(n)]
      && p.A() != p.B() && p.source != p.target
      && Normalize("/", p.source) == Ok(p.source) && Normalize("/", p.target) == Ok(p.target)
  {
    EntryKey(Flash, m);
    EntryKey(Flash, n);
    assert PlanFor(m, n).A()[1] != PlanFor(m, n).B()[1];
    EntryResolves(Flash, m, {Flash});
    EntryResolves(Flash, n, {Flash});
    NormalizeIsIdempotent("/", EntryPath(Flash, m));
    NormalizeIsIdempotent("/", EntryPath(Flash, n));
  }

  lemma NamesHaveNoNull(p: Plan)
    requires ProperNames(p)
    ensures '\0' !in p.source && '\0' !in p.target
  {
    CanonicalText(Components(p.source));
    CanonicalText(Components(p.target));
  }

  lemma RootIsCanonical()
    ensures Canonical("/")
  {
    RenderRoundTrip([]);
  }

  lemma FilesAreSound(m: Name, n: Name)
    requires Different(m, n)
    ensures var p := PlanFor(m, n);
      && WellFormed(FilesOf(p)) && !HasChildren(FilesOf(p), p.A()) && !HasChildren(FilesOf(p), p.B())
      && PathsOk(OpenOn(p), "/")
  {
    NamesAreProper(m, n);
    RootIsCanonical();
  }

  lemma BackupIsFree(m: Name, n: Name)
    requires Suitable(m, n)
    ensures BackupAvailable(Flash, FilesOf(PlanFor(m, n)), 0)
  {
    NamesAreProper(m, n);
    BackupNameIsName(0);
    EntryKey(Flash, BackupName(0));
    assert KeyOf(BackupPath(Flash, 0))[1] == FoldName(BackupName(0));
    assert PlanFor(m, n).A()[1] == FoldName(m) && PlanFor(m, n).B()[1] == FoldName(n);
    assert Candidate(0, 0) == 0 && !BackupTaken(Flash, FilesOf(PlanFor(m, n)), 0);
  }

  lemma MigrationFits(p: Plan)
    requires ProperNames(p) && !p.directory && p.A() != p.B()
    ensures MigrationsFit(p, OpenOn(p), "/") && Unoccupied(p, OpenOn(p), "/") && !IntoItself(p)
    ensures KeyOf(Migrate(p.source, p.source, p.target, false)) == p.B()
  {
    ExactPrefixIsEquality(p.source, p.target);
    MigrateExactIsRebase(p.source, p.source, p.target);
  }

  lemma RenameIsAcceptable(fs: FileSystem, m: Name, n: Name)
    requires fs.mounted == {Flash} && Different(m, n)
    ensures var p := PlanFor(m, n);
      && fs.Acceptable(p, FilesOf(p), OpenOn(p), "/", p.source, p.target) && Replaces(FilesOf(p), p)
      && PlanOk(FilesOf(p), p) && Sound(FilesOf(p), JobOf(p, true)) && Backed(JobOf(p, true))
  {
    NamesAreProper(m, n);
    FilesAreSound(m, n);
    MigrationFits(PlanFor(m, n));
  }

  method Setup(t: Tree, descriptors: seq<Descriptor>, faults: Faults) returns (fs: FileSystem)
    requires WellFormed(t) && PathsOk(descriptors, "/")
    ensures fresh(fs) && fs.Valid() && fs.mounted == {Flash} && fs.faults == faults && fs.backupSequence == 0
    ensures fs.Now() == View(t, descriptors, "/")
  {
    fs := new FileSystem({Flash}, faults, _ => false, t, descriptors, "/");
  }

  /** A rename that passes its checks and finds something to replace. */
  method Go(fs: FileSystem, p: Plan) returns (error: Errno, ghost run: Run)
    requires fs.Valid() && fs.mounted == {Flash} && fs.backupSequence == 0 && fs.ChecksWork() && ProperNames(p)
    requires fs.Acceptable(p, fs.tree, fs.descriptors, fs.cwd, p.source, p.target)
    requires Replaces(fs.tree, p) && p.A() != p.B()
    modifies fs
    ensures Performed(run, old(fs.Now()), fs.Now(), error, fs.silent, {Flash})
    ensures run.prepared && run.plan == p && run.present
    ensures fs.Faced(run.script) && fs.Searched(p.mount, old(fs.tree), 0, run.script.backup)
  {
    NamesHaveNoNull(p);
    error, run := fs.Rename(p.source, p.target);
  }

  /** A plan between two files at the top of the volume. */
  predicate BetweenFiles(p: Plan) {
    && ProperNames(p) && OnVolume(p, {Flash}) && !p.directory && p.SpellingChanged()
    && p.A() != p.B() && |p.A()| == |p.B()| == 2
  }

  lemma FilesAreSoundFor(p: Plan)
    requires BetweenFiles(p)
    ensures WellFormed(FilesOf(p)) && PlanOk(FilesOf(p), p) && Sound(FilesOf(p), JobOf(p, true)) &&
      Backed(JobOf(p, true))
  {
  }

  lemma FirstCanBeDeleted(p: Plan)
    requires BetweenFiles(p)
    ensures Backed(JobOf(p, true)) && CanDelete(FilesOf(p), p.directory, p.A())
  {
  }

  // ----- The destination is destroyed

  function SourceFault(n: nat, s: Site): Option<Failure> {
    if s == SourceRename then Some(FX_END_OF_FILE) else None
  }

  lemma SourceFaultAllows(fs: FileSystem)
    requires fs.faults == SourceFault
    ensures fs.ChecksWork() && fs.Works(BackupInformation)
  {
  }

  lemma SourceFaultMeets(fs: FileSystem, s: Script)
    requires fs.faults == SourceFault && fs.Faced(s)
    ensures s.aside.None? && s.source == Some(FX_END_OF_FILE) && s.delete.None?
  {
  }

  lemma SilentSites(run: Run, v: View, v': View, error: Errno, silent: set<Site>)
    requires Performed(run, v, v', error, silent, {Flash}) && run.prepared
    requires var q := Played(v.tree, run.Job(), run.script); q.ok && q.hush == Hush(false, true, false)
    ensures error == EOK && SourceRename in silent && AsideRename !in silent && BackupDelete !in silent
  {
  }

  lemma SilentSourcePlay(t: Tree, p: Plan, s: Script)
    requires WellFormed(t) && PlanOk(t, p) && Sound(t, JobOf(p, true)) && Backed(JobOf(p, true))
    requires s.backup.Some? && s.backup.value !in t && |s.backup.value| == 2
    requires s.aside.None? && s.source == Some(FX_END_OF_FILE) && s.delete.None?
    ensures var q := Played(t, JobOf(p, true), s); q.ok && q.hush == Hush(false, true, false)
  {
    GentlePlaySucceeds(t, JobOf(p, true), s);
    PlayedFlows(t, JobOf(p, true), s, EOK);
  }

  lemma DescriptorNamesNothing(p: Plan, t: Tree, after: seq<Descriptor>, cwd': string)
    requires ProperNames(p) && !p.directory && p.A() != p.B() && p.B() !in t
    requires Follows(p, true, OpenOn(p), after, "/", cwd')
    ensures |after| == 1 && after[0].inUse && ObjectAt(t, KeyOf(after[0].path)) == None
  {
    MigrationFits(p);
    assert after[0] == MigratedDescriptor(OpenOn(p)[0], p);
  }

  /** An open file is renamed onto another, and the call that renames it fails with
      FX_END_OF_FILE.  0 is returned, the other file is gone, the file still has
      its old name, and the descriptor names nothing. */
  method SilentSourceRename(m: Name, n: Name) returns (fs: FileSystem, error: Errno)
    requires Suitable(m, n)
    ensures fresh(fs) && error == EOK && fs.tree == FirstFile(PlanFor(m, n).A())
    ensures |fs.descriptors| == 1 && fs.descriptors[0].inUse && ObjectAt(fs.tree, KeyOf(fs.descriptors[0].path)) == None
  {
    var p := PlanFor(m, n);
    NamesAreProper(m, n);
    FilesAreSound(m, n);
    fs := Setup(FilesOf(p), OpenOn(p), SourceFault);
    SourceFaultAllows(fs);
    RenameIsAcceptable(fs, m, n);
    ghost var run;
    error, run := Go(fs, p);
    SourceFaultMeets(fs, run.script);
    BackupIsFree(m, n);
    DestinationLost(p, run, fs.Now(), error, fs.silent);
  }

  lemma DestinationDestroyed(p: Plan, run: Run, v: View, v': View, error: Errno, silent: set<Site>)
    requires WellFormed(v.tree) && PlanOk(v.tree, p) && Sound(v.tree, JobOf(p, true)) && Backed(JobOf(p, true))
    requires Performed(run, v, v', error, silent, {Flash}) && run.prepared && run.plan == p && run.present
    requires run.script.backup.Some? && run.script.backup.value !in v.tree && |run.script.backup.value| == 2
    requires run.script.aside.None? && run.script.source == Some(FX_END_OF_FILE) && run.script.delete.None?
    ensures error == EOK && v'.tree == v.tree - {p.B()} && run.renamed
  {
    SilentSourcePlay(v.tree, p, run.script);
    SilentSites(run, v, v', error, silent);
    SilentRenameDestroys(run, v, v', silent, {Flash});
  }

  lemma DestinationLost(p: Plan, run: Run, v': View, error: Errno, silent: set<Site>)
    requires BetweenFiles(p) && Performed(run, Before(p), v', error, silent, {Flash})
    requires run.prepared && run.plan == p && run.present
    requires run.script.backup.Some? && run.script.backup.value !in FilesOf(p) && |run.script.backup.value| == 2
    requires run.script.aside.None? && run.script.source == Some(FX_END_OF_FILE) && run.script.delete.None?
    ensures error == EOK && v'.tree == FirstFile(p.A())
    ensures |v'.descriptors| == 1 && v'.descriptors[0].inUse && ObjectAt(v'.tree, KeyOf(v'.descriptors[0].path)) == None
  {
    FilesAreSoundFor(p);
    DestinationDestroyed(p, run, Before(p), v', error, silent);
    WithoutTheSecond(p.A(), p.B());
    DescriptorNamesNothing(p, v'.tree, v'.descriptors, v'.cwd);
  }

  lemma WithoutTheSecond(a: Key, b: Key)
    requires a != b
    ensures TwoFiles(a, b) - {b} == FirstFile(a)
  {
  }

  // ----- The source is deleted

  /** Backup names look free, and both renames fail silently. */
  function BlindFault(n: nat, s: Site): Option<Failure> {
    match s
    case BackupInformation => Some(FX_NOT_FOUND)
    case AsideRename => Some(FX_END_OF_FILE)
    case SourceRename => Some(FX_END_OF_FILE)
    case _ => None
  }

  lemma BlindFaultAllows(fs: FileSystem)
    requires fs.faults == BlindFault
    ensures fs.ChecksWork() && fs.Misses(BackupInformation)
  {
  }

  lemma BlindFaultMeets(fs: FileSystem, s: Script)
    requires fs.faults == BlindFault && fs.Faced(s)
    ensures s.aside == Some(FX_END_OF_FILE) && s.source == Some(FX_END_OF_FILE) && s.delete.None?
  {
  }

  /** A file that has the first backup name is renamed onto another.  The probe fails
      with FX_NOT_FOUND, so that the name is taken for free, and both renames fail
      with FX_END_OF_FILE.  What is deleted as the backup is the source: 0 is
      returned, the source is gone and the other file is untouched. */
  method SilentRenamesDeleteSource(n: Name) returns (fs: FileSystem, error: Errno)
    requires Different(BackupName(0), n)
    ensures fresh(fs) && error == EOK && fs.tree == map[PlanFor(BackupName(0), n).B() := Entry(2, false)]
  {
    var p := PlanFor(BackupName(0), n);
    NamesAreProper(BackupName(0), n);
    FilesAreSound(BackupName(0), n);
    fs := Setup(FilesOf(p), OpenOn(p), BlindFault);
    BlindFaultAllows(fs);
    RenameIsAcceptable(fs, BackupName(0), n);
    ghost var run;
    error, run := Go(fs, p);
    BlindFaultMeets(fs, run.script);
    assert Candidate(0, 0) == 0;
    SourceDeletedToo(p, run, fs.Now(), error, fs.silent);
  }

  /** Whatever has the backup name is deleted. */
  lemma BackupNameDeleted(run: Run, v: View, v': View, error: Errno, silent: set<Site>)
    requires Performed(run, v, v', error, silent, {Flash}) && run.prepared && Backed(run.Job())
    requires run.script.backup.Some? && CanDelete(v.tree, run.plan.directory, run.script.backup.value)
    requires Silent(run.script.aside) && Silent(run.script.source) && run.script.delete.None?
    ensures error == EOK && v'.tree == v.tree - {run.script.backup.value}
  {
    BlindPlay(v.tree, run.Job(), run.script);
  }

  lemma SourceDeletedToo(p: Plan, run: Run, v': View, error: Errno, silent: set<Site>)
    requires BetweenFiles(p) && Performed(run, Before(p), v', error, silent, {Flash})
    requires run.prepared && run.plan == p && run.present
    requires run.script.backup == Some(p.A()) && run.script.delete.None?
    requires run.script.aside == Some(FX_END_OF_FILE) && run.script.source == Some(FX_END_OF_FILE)
    ensures error == EOK && v'.tree == map[p.B() := Entry(2, false)]
  {
    FirstCanBeDeleted(p);
    BackupNameDeleted(run, Before(p), v', error, silent);
    WithoutTheFirst(p.A(), p.B());
  }

  lemma WithoutTheFirst(a: Key, b: Key)
    requires a != b
    ensures TwoFiles(a, b) - {a} == map[b := Entry(2, false)]
  {
  }

  lemma BlindPlay(t: Tree, r: Job, s: Script)
    requires Backed(r) && s.backup.Some? && Silent(s.aside) && Silent(s.source) && s.delete.None?
    requires CanDelete(t, r.directory, s.backup.value)
    ensures var q := Played(t, r, s); q.course == Course(s.backup.value, false, false, false, true) && q.ok
  {
  }

  // ----- The source goes aside

  /** Scans fail silently, and so directories look empty; the restore fails. */
  function ScanFault(n: nat, s: Site): Option<Failure> {
    match s
    case Scan => Some(FX_END_OF_FILE)
    case RestoreRename => Some(FX_OTHER)
    case _ => None
  }

  lemma ScanFaultAllows(fs: FileSystem)
    requires fs.faults == ScanFault
    ensures fs.ChecksWork() && fs.ScanLies() && fs.Works(BackupInformation)
  {
  }

  lemma ScanFaultMeets(fs: FileSystem, s: Script)
    requires fs.faults == ScanFault && fs.Faced(s)
    ensures s.aside.None? && s.source.None? && s.restore == Some(FX_OTHER)
  {
  }

  /** The renaming of a directory onto the directory it is in. */
  function InnerPlan(m: Name, n: Name): Plan {
    Plan(EntryPath(Flash, n) + "/" + m, EntryPath(Flash, n), Flash, true)
  }

  function Directories(p: Plan): Tree { map[p.A() := Entry(1, true), p.B() := Entry(2, true)] }

  predicate Short(m: Name, n: Name) {
    IsName(m) && IsName(n) && |m| < 100 && |n| < 100 && FoldName(n) != FoldName(BackupName(0))
  }

  lemma ChildPath(path: string, m: Name)
    requires Canonical(path) && KeyOf(path) != [] && IsName(m)
    ensures Canonical(path + "/" + m) && KeyOf(path + "/" + m) == KeyOf(path) + [FoldName(m)]
  {
    var stack := Components(path) + [m];
    JoinConcat(Components(path), [m]);
    JoinHead([m]);
    assert [m][1..] == [] && "/" + m + "" == "/" + m;
    assert Render(stack) == path + ("/" + m) == path + "/" + m;
    RenderRoundTrip(stack);
    assert FoldAll(stack) == FoldAll(Components(path)) + [FoldName(m)];
  }

  lemma InnerNamesAreProper(m: Name, n: Name)
    requires Short(m, n)
    ensures var p := InnerPlan(m, n);
      && ProperNames(p) && OnVolume(p, {Flash}) && p.B() == ["FLASH", FoldName(n)] && p.A() == p.B() + [FoldName(m)]
      && p.source != p.target && Normalize("/", p.source) == Ok(p.source) && Normalize("/", p.target) == Ok(p.target)
  {
    var p := InnerPlan(m, n);
    EntryKey(Flash, n);
    EntryResolves(Flash, n, {Flash});
    ChildPath(p.target, m);
    MountKeys(Flash);
    PrefixIsAncestry(p.source, MountPath(Flash));
    NormalizeIsIdempotent("/", p.source);
    NormalizeIsIdempotent("/", p.target);
  }

  lemma DirectoriesAreSound(m: Name, n: Name)
    requires Short(m, n)
    ensures var p := InnerPlan(m, n); WellFormed(Directories(p)) && PathsOk([], "/") && HasParent(Directories(p), p.B())
  {
    var p := InnerPlan(m, n);
    InnerNamesAreProper(m, n);
    RootIsCanonical();
    assert Parent(p.A()) == p.B();
  }

  lemma InnerRenameIsAcceptable(fs: FileSystem, m: Name, n: Name)
    requires fs.mounted == {Flash} && fs.ScanLies() && Short(m, n)
    ensures var p := InnerPlan(m, n);
      fs.Acceptable(p, Directories(p), [], "/", p.source, p.target) && Replaces(Directories(p), p)
  {
    var p := InnerPlan(m, n);
    InnerNamesAreProper(m, n);
    NotIntoItself(p);
    RootIsCanonical();
    PrefixIsAncestry("/", p.source);
    PrefixIsAncestry("/", p.target);
    RenderRoundTrip([]);
  }

  lemma InnerBackupIsFree(m: Name, n: Name)
    requires Short(m, n)
    ensures BackupAvailable(Flash, Directories(InnerPlan(m, n)), 0)
  {
    InnerNamesAreProper(m, n);
    BackupNameIsName(0);
    EntryKey(Flash, BackupName(0));
    assert KeyOf(BackupPath(Flash, 0))[1] == FoldName(BackupName(0));
    assert InnerPlan(m, n).B()[1] == FoldName(n);
    assert Candidate(0, 0) == 0 && !BackupTaken(Flash, Directories(InnerPlan(m, n)), 0);
  }

  /** A directory is renamed onto the directory it is in.  The scan fails with
      FX_END_OF_FILE, so that the destination is taken for empty and put aside with
      the source in it; the source rename finds nothing, and the restore fails.  An
      error is returned, and the source is under neither of its names. */
  method SilentScanTakesSourceAside(m: Name, n: Name) returns (fs: FileSystem, error: Errno, ghost home: Key)
    requires Short(m, n)
    ensures fresh(fs) && error != EOK && home != InnerPlan(m, n).A() && home != InnerPlan(m, n).B()
    ensures home in fs.tree && fs.tree[home].id == 1 && forall j :: j in fs.tree && fs.tree[j].id == 1 ==> j == home
  {
    var p := InnerPlan(m, n);
    InnerNamesAreProper(m, n);
    DirectoriesAreSound(m, n);
    fs := Setup(Directories(p), [], ScanFault);
    ScanFaultAllows(fs);
    InnerRenameIsAcceptable(fs, m, n);
    ghost var run;
    error, run := Go(fs, p);
    ScanFaultMeets(fs, run.script);
    InnerBackupIsFree(m, n);
    home := SourceWentAside(p, run, fs.Now(), error, fs.silent);
  }

  lemma SourceWentAside(p: Plan, run: Run, v': View, error: Errno, silent: set<Site>) returns (home: Key)
    requires p.directory && p.SpellingChanged() && p.B() <= p.A() && p.A() != p.B() && |p.B()| == 2
    requires WellFormed(Directories(p)) && Performed(run, View(Directories(p), [], "/"), v', error, silent, {Flash})
    requires run.prepared && run.plan == p && run.present
    requires run.script.backup.Some? && run.script.backup.value !in Directories(p) && |run.script.backup.value| == 2
    requires run.script.aside.None? && run.script.source.None? && run.script.restore == Some(FX_OTHER)
    ensures error != EOK && home != p.A() && home != p.B()
    ensures home in v'.tree && v'.tree[home].id == 1 && forall j :: j in v'.tree && v'.tree[j].id == 1 ==> j == home
  {
    var v := View(Directories(p), [], "/");
    RenameTakesSourceAside(run, v, v', error, silent, {Flash});
    RenameKeepsObjectIff(run, v, v', error, silent, {Flash}, p.A());
    home := Home(run, p.A());
    AsideStays(Directories(p), run.Job(), run.script);
  }

  lemma AsideStays(t: Tree, r: Job, s: Script)
    requires Backed(r) && s.backup.Some? && s.aside.None? && CanMove(t, r.directory, r.b, s.backup.value)
    requires s.source.None? && s.restore.Some? && !Played(t, r, s).course.moved
    ensures var q := Played(t, r, s); q.course == Course(s.backup.value, true, false, false, false) && !q.ok
  {
  }
}
