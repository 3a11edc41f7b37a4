/**
 What a rename really did to the volume, what it believed to have done, and when
 the two agree.  A FileX call that fails with one of the two codes that the error
 translation turns into success is believed to have succeeded.
 */
module RenameCourse {
  import opened Errors
  import opened Wrappers
  import opened Paths
  import opened PathKeys
  import opened Volume
  import opened RenameOutcome
  import opened RenamePlan

  /** Which of the four volume calls took effect. */
  datatype Course = Course(backup: Key, aside: bool, moved: bool, restored: bool, deleted: bool)

  const IDLE := Course([], false, false, false, false)

  function AfterAside(t: Tree, b: Key, c: Course): Tree { if c.aside then Move(t, b, c.backup) else t }

  function AfterSource(t: Tree, a: Key, b: Key, c: Course): Tree {
    if c.moved then Move(AfterAside(t, b, c), a, b) else AfterAside(t, b, c)
  }

  function AfterRestore(t: Tree, a: Key, b: Key, c: Course): Tree {
    if c.restored then Move(AfterSource(t, a, b, c), c.backup, b) else AfterSource(t, a, b, c)
  }

  function Final(t: Tree, a: Key, b: Key, c: Course): Tree {
    if c.deleted then AfterRestore(t, a, b, c) - {c.backup} else AfterRestore(t, a, b, c)
  }

  predicate NotBelow(x: Key, y: Key) { x == y || !(x <= y) }

  /** Each call that took effect was one that the volume accepts. */
  predicate Legal(t: Tree, a: Key, b: Key, directory: bool, c: Course) {
    && (c.aside ==> CanMove(t, directory, b, c.backup) && NotBelow(b, c.backup))
    && (c.moved ==> CanMove(AfterAside(t, b, c), directory, a, b) && NotBelow(a, b))
    && (c.restored ==> CanMove(AfterSource(t, a, b, c), directory, c.backup, b) && NotBelow(c.backup, b))
    && (c.deleted ==> CanDelete(AfterRestore(t, a, b, c), directory, c.backup))
  }

  lemma SourceIsWellFormed(t: Tree, a: Key, b: Key, directory: bool, c: Course)
    requires WellFormed(t) && Legal(t, a, b, directory, c)
    ensures WellFormed(AfterAside(t, b, c)) && WellFormed(AfterSource(t, a, b, c))
  {
    if c.aside {
      MoveIsWellFormedIff(t, b, c.backup, directory);
    }
    if c.moved {
      MoveIsWellFormedIff(AfterAside(t, b, c), a, b, directory);
    }
  }

  /** Whatever failed and however it was reported, the volume is a tree. */
  lemma FinalIsWellFormed(t: Tree, a: Key, b: Key, directory: bool, c: Course)
    requires WellFormed(t) && Legal(t, a, b, directory, c)
    ensures WellFormed(Final(t, a, b, c))
  {
    SourceIsWellFormed(t, a, b, directory, c);
    if c.restored {
      MoveIsWellFormedIff(AfterSource(t, a, b, c), c.backup, b, directory);
    }
    if c.deleted {
      DeleteIsWellFormed(AfterRestore(t, a, b, c), c.backup);
    }
  }

  // ----- What the code believes

  /** What the checks have found out about a rename of a to b. */
  datatype Job = Job(a: Key, b: Key, directory: bool, changed: bool, present: bool)

  /** What they have found is right. */
  ghost predicate Sound(t: Tree, r: Job) {
    && |r.a| >= 2 && |r.b| >= 2 && r.a in t && t[r.a].directory == r.directory
    && (r.directory && r.a != r.b ==> !(r.a <= r.b))
    && (r.present ==> r.changed && r.b in t && t[r.b].directory == r.directory)
    && (r.present && r.a != r.b && r.directory ==> !HasChildren(t, r.b))
  }

  lemma SoundNotAbove(t: Tree, r: Job)
    requires WellFormed(t) && Sound(t, r) && HasParent(t, r.b)
    ensures NotBelow(r.a, r.b)
  {
    if !r.directory && r.a != r.b {
      FileIsNotAbove(t, r.a, r.b);
    }
  }

  lemma SoundSetsAside(t: Tree, r: Job, k: Key)
    requires WellFormed(t) && Sound(t, r) && Backed(r) && k !in t && |k| == 2
    ensures CanSetAside(t, r.a, r.b, r.directory, k)
  {
    assert HasParent(t, r.b);
    SoundNotAbove(t, r);
    if !r.directory {
      FileHasNoChildren(t, r.b);
    }
  }

  /** The destination is to be replaced. */
  predicate Backed(r: Job) { r.present && r.a != r.b }

  /** Which of the calls that matter failed silently. */
  datatype Hush = Hush(aside: bool, source: bool, delete: bool)

  predicate AsideBelieved(c: Course, h: Hush) { c.aside || h.aside }

  /** The branches of _rename after its checks: which calls were made, which are
      believed to have succeeded, and what is reported. */
  predicate Flow(r: Job, c: Course, error: Errno, renamed: bool, h: Hush) {
    && (h.aside ==> !c.aside) && (h.source ==> !c.moved) && (h.delete ==> !c.deleted)
    && (renamed <==> c.moved || h.source)
    && (!Backed(r) ==> !AsideBelieved(c, h) && !c.restored && !c.deleted && !h.delete)
    && (if !r.changed then error == EOK && !renamed && !r.present
        else if Backed(r) && !AsideBelieved(c, h) then error != EOK && !renamed && !c.restored && !c.deleted &&
          !h.delete
        else if !renamed then error != EOK && !c.deleted && !h.delete
        else !c.restored && (error == EOK <==> !Backed(r) || c.deleted || h.delete))
  }

  // ----- The five states

  /** The outcome a course amounts to when the checks were right. */
  function OutcomeOf(r: Job, c: Course, renamed: bool): Outcome {
    var aside := c.aside && c.backup != r.b;
    if renamed then
      if !aside then Moved else if c.deleted then Replaced(c.backup) else MovedLeaving(c.backup)
    else if aside && !c.restored then Stranded(c.backup)
    else Untouched
  }

  /** The outcome describes the course, and the paths follow if the source moves. */
  ghost predicate Explains(t: Tree, r: Job, c: Course, renamed: bool, o: Outcome) {
    && Possible(t, r.a, r.b, r.directory, o) && Final(t, r.a, r.b, c) == Effect(t, r.a, r.b, o)
    && (SourceMoves(o) <==> renamed) && (UsesBackup(o) ==> Backed(r))
  }

  /** A source that stays put while a present destination is not aside. */
  lemma NothingHappens(t: Tree, r: Job, c: Course, error: Errno, renamed: bool, h: Hush)
    requires WellFormed(t) && Sound(t, r) && Backed(r) && !(c.aside && c.backup != r.b)
    requires Legal(t, r.a, r.b, r.directory, c) && Flow(r, c, error, renamed, h)
    requires !h.source
    ensures !renamed && Final(t, r.a, r.b, c) == t && Explains(t, r, c, renamed, OutcomeOf(r, c, renamed))
  {
    MoveOnto(t, r.b);
    FinalWhenNot(t, r, c);
  }

  lemma FinalWhenNot(t: Tree, r: Job, c: Course)
    requires Legal(t, r.a, r.b, r.directory, c) && !c.deleted && !(c.aside && c.backup != r.b)
    requires r.b in t && r.a != r.b && Move(t, r.b, r.b) == t
    ensures !c.moved && Final(t, r.a, r.b, c) == t
  {
    assert AfterAside(t, r.b, c) == t;
  }

  lemma FinalWhenAside(t: Tree, r: Job, c: Course, renamed: bool)
    requires c.aside && c.backup != r.b && renamed == c.moved && (if renamed then !c.restored else !c.deleted)
    requires Move(Move(t, r.b, c.backup), c.backup, r.b) == t
    ensures Final(t, r.a, r.b, c) == Effect(t, r.a, r.b, OutcomeOf(r, c, renamed))
  {
  }

  /** A destination that really was put aside. */
  lemma AsideExplained(t: Tree, r: Job, c: Course, error: Errno, renamed: bool, h: Hush)
    requires WellFormed(t) && Sound(t, r) && Backed(r) && c.aside && c.backup != r.b && |c.backup| == 2
    requires Legal(t, r.a, r.b, r.directory, c) && Flow(r, c, error, renamed, h)
    requires !h.source
    ensures Explains(t, r, c, renamed, OutcomeOf(r, c, renamed))
  {
    SoundSetsAside(t, r, c.backup);
    RestoreUndoes(t, r.a, r.b, r.directory, c.backup);
    FinalWhenAside(t, r, c, renamed);
  }

  /** A rename that replaces nothing. */
  lemma PlainExplained(t: Tree, r: Job, c: Course, error: Errno, renamed: bool, h: Hush)
    requires WellFormed(t) && Sound(t, r) && !Backed(r)
    requires Legal(t, r.a, r.b, r.directory, c) && Flow(r, c, error, renamed, h)
    requires h.source ==> r.a == r.b
    ensures Explains(t, r, c, renamed, OutcomeOf(r, c, renamed))
  {
    if h.source {
      MoveOnto(t, r.a);
      assert HasParent(t, r.a);
    }
  }

  /** If the checks were right and the source rename did not fail silently, the
      run ends in one of the five states, and the paths followed exactly when the
      source moved. */
  lemma CourseIsExplained(t: Tree, r: Job, c: Course, error: Errno, renamed: bool, h: Hush)
    requires WellFormed(t) && Sound(t, r) && (c.aside ==> |c.backup| == 2)
    requires Legal(t, r.a, r.b, r.directory, c) && Flow(r, c, error, renamed, h)
    requires h.source ==> r.a == r.b
    ensures Explains(t, r, c, renamed, OutcomeOf(r, c, renamed))
  {
    if Backed(r) {
      if c.aside && c.backup != r.b {
        AsideExplained(t, r, c, error, renamed, h);
      } else {
        NothingHappens(t, r, c, error, renamed, h);
      }
    } else {
      PlainExplained(t, r, c, error, renamed, h);
    }
  }

  /** The result tells what happened: the run ends in one of the five states, the
      paths were migrated exactly if the source moved, and 0 was returned exactly
      if the source has its new name and the old destination is gone. */
  ghost predicate Truthful(t: Tree, r: Job, t': Tree, error: Errno, renamed: bool) {
    exists o: Outcome ::
      && Possible(t, r.a, r.b, r.directory, o) && t' == Effect(t, r.a, r.b, o)
      && (SourceMoves(o) <==> renamed)
      && (error == EOK <==> o.Moved? || o.Replaced? || (o.Untouched? && !r.changed))
  }

  lemma QuietIsTruthful(t: Tree, r: Job, c: Course, error: Errno, renamed: bool, h: Hush)
    requires WellFormed(t) && Sound(t, r) && (c.aside ==> |c.backup| == 2)
    requires Legal(t, r.a, r.b, r.directory, c) && Flow(r, c, error, renamed, h)
    requires !h.delete && (h.source ==> r.a == r.b)
    ensures Truthful(t, r, Final(t, r.a, r.b, c), error, renamed)
  {
    CourseIsExplained(t, r, c, error, renamed, h);
    var o := OutcomeOf(r, c, renamed);
    if Backed(r) && !(c.aside && c.backup != r.b) {
      NothingHappens(t, r, c, error, renamed, h);
    }
    assert error == EOK <==> o.Moved? || o.Replaced? || (o.Untouched? && !r.changed);
  }

  /** Without a move of the source, an entry stands where it stood or, if it was
      the destination, under the backup name. */
  lemma Unmoved(t: Tree, r: Job, c: Course, j: Key)
    requires WellFormed(t) && Sound(t, r) && (c.aside ==> Backed(r) && |c.backup| == 2)
    requires Legal(t, r.a, r.b, r.directory, c) && !c.moved && !c.restored
    requires j in Final(t, r.a, r.b, c)
    ensures var x := Final(t, r.a, r.b, c)[j];
      (j in t && t[j] == x) || (c.aside && j == c.backup && r.b in t && t[r.b] == x)
    ensures c.aside && c.backup != r.b ==> j != r.b
  {
    if c.aside {
      if c.backup == r.b {
        MoveOnto(t, r.b);
      } else {
        SoundSetsAside(t, r, c.backup);
        SetAside(t, r.a, r.b, r.directory, c.backup);
        if j != c.backup {
          assert j in t && j != r.b;
        }
      }
    }
  }

  /** A silent source rename is believed although the source did not move. */
  lemma SilentSourceLies(t: Tree, r: Job, c: Course, error: Errno, renamed: bool, h: Hush)
    requires WellFormed(t) && Sound(t, r) && (c.aside ==> |c.backup| == 2)
    requires Legal(t, r.a, r.b, r.directory, c) && Flow(r, c, error, renamed, h)
    requires h.source && r.a != r.b
    ensures !Truthful(t, r, Final(t, r.a, r.b, c), error, renamed)
  {
    SourceIsElsewhere(t, r, c);
    forall o: Outcome | Possible(t, r.a, r.b, r.directory, o) && SourceMoves(o)
      ensures Final(t, r.a, r.b, c) != Effect(t, r.a, r.b, o)
    {
      SourceIsHome(t, r.a, r.b, r.directory, o);
    }
  }

  /** If the source did not move, its object is not under the new name. */
  lemma SourceIsElsewhere(t: Tree, r: Job, c: Course)
    requires WellFormed(t) && Sound(t, r) && r.a != r.b && (c.aside ==> Backed(r) && |c.backup| == 2)
    requires Legal(t, r.a, r.b, r.directory, c) && !c.moved && !c.restored
    ensures r.b in Final(t, r.a, r.b, c) ==> Final(t, r.a, r.b, c)[r.b].id != t[r.a].id
  {
    if r.b in Final(t, r.a, r.b, c) {
      Unmoved(t, r, c, r.b);
      NameOfObject(t, r.a);
    }
  }

  lemma FinalIds(t: Tree, r: Job, c: Course)
    requires WellFormed(t) && Sound(t, r) && Legal(t, r.a, r.b, r.directory, c)
    requires !c.restored && !c.deleted
    ensures Ids(Final(t, r.a, r.b, c)) == Ids(t)
  {
    if c.aside {
      MoveIsWellFormedIff(t, r.b, c.backup, r.directory);
      IdsOfMove(t, r.b, c.backup);
    }
    if c.moved {
      IdsOfMove(AfterAside(t, r.b, c), r.a, r.b);
    }
  }

  /** A silent delete is reported as success although the backup is left behind. */
  lemma SilentDeleteLies(t: Tree, r: Job, c: Course, error: Errno, renamed: bool, h: Hush)
    requires WellFormed(t) && Sound(t, r) && (c.aside ==> |c.backup| == 2)
    requires Legal(t, r.a, r.b, r.directory, c) && Flow(r, c, error, renamed, h)
    requires h.delete
    ensures !Truthful(t, r, Final(t, r.a, r.b, c), error, renamed)
  {
    var a, b, t' := r.a, r.b, Final(t, r.a, r.b, c);
    FinalIds(t, r, c);
    assert t[b].id in Ids(t);
    if o: Outcome :|
      && Possible(t, a, b, r.directory, o) && t' == Effect(t, a, b, o) && (SourceMoves(o) <==> renamed)
      && (error == EOK <==> o.Moved? || o.Replaced? || (o.Untouched? && !r.changed))
    {
      ObjectsAreConserved(t, a, b, r.directory, o);
    }
  }

  /** Exactly when a rename whose checks were right tells the truth. */
  lemma TruthfulIff(t: Tree, r: Job, c: Course, error: Errno, renamed: bool, h: Hush)
    requires WellFormed(t) && Sound(t, r) && (c.aside ==> |c.backup| == 2)
    requires Legal(t, r.a, r.b, r.directory, c) && Flow(r, c, error, renamed, h)
    ensures Truthful(t, r, Final(t, r.a, r.b, c), error, renamed) <==>
      !h.delete && (h.source ==> r.a == r.b)
  {
    if h.delete {
      SilentDeleteLies(t, r, c, error, renamed, h);
    } else if h.source && r.a != r.b {
      SilentSourceLies(t, r, c, error, renamed, h);
    } else {
      QuietIsTruthful(t, r, c, error, renamed, h);
    }
  }

  /** If the source did not move, the key its entries would have moved to does not
      hold them. */
  lemma MigratedKeyIsStale(t: Tree, r: Job, c: Course, s: Key)
    requires WellFormed(t) && Sound(t, r) && (c.aside ==> Backed(r) && |c.backup| == 2)
    requires Legal(t, r.a, r.b, r.directory, c) && !c.moved && !c.restored
    requires r.a != r.b && r.a + s in t && r.b + s in Final(t, r.a, r.b, c)
    ensures Final(t, r.a, r.b, c)[r.b + s].id != t[r.a + s].id
  {
    assert (r.a + s)[..|r.a|] == r.a && (r.b + s)[..|r.b|] == r.b;
    assert |r.a + s| == |r.b + s| ==> |r.a| == |r.b|;
    Unmoved(t, r, c, r.b + s);
    NameOfObject(t, r.a + s);
    if r.b in t {
      assert HasParent(t, r.b);
      SoundNotAbove(t, r);
      assert r.a + s == r.b ==> r.a <= r.b;
    }
  }

  /** A destination that was put aside and deleted is gone, and nothing else is. */
  lemma AsideAndGone(t: Tree, a: Key, b: Key, directory: bool, k: Key)
    requires WellFormed(t) && CanSetAside(t, a, b, directory, k)
    ensures Move(t, b, k) - {k} == t - {b}
  {
    SetAside(t, a, b, directory, k);
  }

  /** If 0 is returned although the source rename failed silently, the destination
      is destroyed. */
  lemma SilentSourceDestroys(t: Tree, r: Job, c: Course, renamed: bool)
    requires WellFormed(t) && Sound(t, r) && Backed(r) && (c.aside ==> |c.backup| == 2)
    requires Legal(t, r.a, r.b, r.directory, c) && Flow(r, c, EOK, renamed, Hush(false, true, false))
    ensures Final(t, r.a, r.b, c) == t - {r.b} && renamed && !c.moved
  {
    assert c.aside && c.deleted && !c.restored;
    if c.backup == r.b {
      MoveOnto(t, r.b);
    } else {
      SoundSetsAside(t, r, c.backup);
      AsideAndGone(t, r.a, r.b, r.directory, c.backup);
    }
  }

  // ----- Paths

  function JobOf(plan: Plan, present: bool): Job {
    Job(plan.A(), plan.B(), plan.directory, plan.SpellingChanged(), present)
  }

  /** If the source rename did not fail silently, every descriptor and the current
      directory names what it named before. */
  lemma PathsKeepObjects(t: Tree, plan: Plan, present: bool, c: Course, error: Errno, renamed: bool, h: Hush,
                         before: seq<Descriptor>, after: seq<Descriptor>, cwd: string, cwd': string)
    requires WellFormed(t) && PlanOk(t, plan) && Sound(t, JobOf(plan, present)) && (c.aside ==> |c.backup| == 2)
    requires Legal(t, plan.A(), plan.B(), plan.directory, c) && Flow(JobOf(plan, present), c, error, renamed, h)
    requires h.source ==> plan.A() == plan.B()
    requires PathsOk(before, cwd) && (Backed(JobOf(plan, present)) ==> Unoccupied(plan, before, cwd))
    requires Follows(plan, renamed, before, after, cwd, cwd')
    ensures NamesKept(t, Final(t, plan.A(), plan.B(), c), before, after)
    ensures NamesDirectory(t, KeyOf(cwd)) ==>
      ObjectAt(Final(t, plan.A(), plan.B(), c), KeyOf(cwd')) == ObjectAt(t, KeyOf(cwd))
  {
    CourseIsExplained(t, JobOf(plan, present), c, error, renamed, h);
    var o := OutcomeOf(JobOf(plan, present), c, renamed);
    DescriptorsKeepObjects(plan, o, t, before, after, cwd, cwd');
    DirectoryKeepsObject(plan, o, t, before, after, cwd, cwd');
  }

  /** Descriptor i is open on the source or on something below it. */
  predicate OpenAtSource(t: Tree, plan: Plan, descriptors: seq<Descriptor>, i: nat) {
    && i < |descriptors| && descriptors[i].inUse && Canonical(descriptors[i].path)
    && plan.A() <= KeyOf(descriptors[i].path) && KeyOf(descriptors[i].path) in t
  }

  /** Once migrated, a descriptor below the source is below the new name. */
  lemma MigratedSuffix(t: Tree, plan: Plan, before: seq<Descriptor>, after: seq<Descriptor>, cwd: string, cwd': string,
                       i: nat)
    returns (s: Key)
    requires WellFormed(t) && PlanOk(t, plan) && Follows(plan, true, before, after, cwd, cwd') &&
      OpenAtSource(t, plan, before, i)
    ensures i < |after| && after[i].inUse
    ensures KeyOf(before[i].path) == plan.A() + s && KeyOf(after[i].path) == plan.B() + s
  {
    var j := KeyOf(before[i].path);
    FollowedKey(t, plan, Moved, before[i].path);
    assert after[i] == MigratedDescriptor(before[i], plan);
    assert HasParent(t, j);
    s := j[|plan.A()|..];
  }

  /** After a silent source rename such a descriptor has lost its object. */
  lemma SilentSourceLosesDescriptors(t: Tree, plan: Plan, present: bool, c: Course, error: Errno, renamed: bool,
                                     h: Hush, before: seq<Descriptor>, after: seq<Descriptor>,
                                     cwd: string, cwd': string, i: nat)
    requires WellFormed(t) && PlanOk(t, plan) && Sound(t, JobOf(plan, present)) && (c.aside ==> |c.backup| == 2) &&
      plan.A() != plan.B()
    requires Legal(t, plan.A(), plan.B(), plan.directory, c) && Flow(JobOf(plan, present), c, error, renamed, h)
    requires h.source && Follows(plan, renamed, before, after, cwd, cwd') && OpenAtSource(t, plan, before, i)
    ensures !NamesKept(t, Final(t, plan.A(), plan.B(), c), before, after)
  {
    var s := MigratedSuffix(t, plan, before, after, cwd, cwd', i);
    if plan.B() + s in Final(t, plan.A(), plan.B(), c) {
      MigratedKeyIsStale(t, JobOf(plan, present), c, s);
    }
  }
}
