/**
 The volume phase of a rename as a function of the volume and of what its calls
 meet.
 */
module RenameScript {
  import opened Errors
  import opened Wrappers
  import opened PathKeys
  import opened Volume
  import opened RenameOutcome
  import opened Filex
  import opened RenamePlan
  import opened RenameCourse

  /** The backup name that the search came up with, and the failures that the volume
      calls meet if they are made. */
  datatype Script = Script(backup: Option<Key>, aside: Option<Failure>, source: Option<Failure>,
                           restore: Option<Failure>, delete: Option<Failure>)

  /** What happens, which calls fail silently, and what is believed and reported. */
  datatype Play = Play(course: Course, hush: Hush, renamed: bool, ok: bool)

  const QUIET := Hush(false, false, false)

  /** The source rename of a destination believed aside, and what follows it. */
  function FinishPlay(t: Tree, r: Job, c: Course, asideHushed: bool, s: Script): Play {
    var moved := s.source.None? && CanMove(AfterAside(t, r.b, c), r.directory, r.a, r.b);
    var h := Hush(asideHushed, Silent(s.source), false);
    var d := c.(moved := moved);
    var u := AfterSource(t, r.a, r.b, d);
    if moved || h.source then
      var deleted := s.delete.None? && CanDelete(u, r.directory, c.backup);
      Play(d.(deleted := deleted), h.(delete := Silent(s.delete)), true, deleted || Silent(s.delete))
    else
      Play(d.(restored := s.restore.None? && CanMove(u, r.directory, c.backup, r.b)), h, false, false)
  }

  /** The replacement of a destination. */
  function ReplacePlay(t: Tree, r: Job, s: Script): Play {
    match s.backup
    case None => Play(IDLE, QUIET, false, false)
    case Some(k) =>
      var aside := s.aside.None? && CanMove(t, r.directory, r.b, k);
      if aside || Silent(s.aside) then
        FinishPlay(t, r, Course(k, aside, false, false, false), Silent(s.aside), s)
      else
        Play(IDLE, QUIET, false, false)
  }

  /** A rename that replaces nothing. */
  function PlainPlay(t: Tree, r: Job, s: Script): Play {
    var moved := s.source.None? && CanMove(t, r.directory, r.a, r.b);
    var believed := moved || Silent(s.source);
    Play(IDLE.(moved := moved), QUIET.(source := Silent(s.source)), believed, believed)
  }

  function Played(t: Tree, r: Job, s: Script): Play {
    if Backed(r) then ReplacePlay(t, r, s)
    else if r.changed then PlainPlay(t, r, s)
    else Play(IDLE, QUIET, false, true)
  }

  /** The play follows the branches of the code. */
  lemma PlayedFlows(t: Tree, r: Job, s: Script, error: Errno)
    requires (r.present ==> r.changed) && (Played(t, r, s).ok <==> error == EOK)
    ensures var p := Played(t, r, s); Flow(r, p.course, error, p.renamed, p.hush)
  {
  }

  /** Nothing fails but, silently, the source rename. */
  predicate Gentle(s: Script) {
    s.aside.None? && (s.source.None? || Silent(s.source)) && s.delete.None?
  }

  /** Then the rename succeeds if there is room for it. */
  lemma GentlePlaySucceeds(t: Tree, r: Job, s: Script)
    requires WellFormed(t) && Sound(t, r) && Gentle(s)
    requires if Backed(r) then s.backup.Some? && s.backup.value !in t && |s.backup.value| == 2
             else CanMove(t, r.directory, r.a, r.b)
    ensures Played(t, r, s).ok
  {
    if Backed(r) {
      var k := s.backup.value;
      SoundSetsAside(t, r, k);
      assert HasParent(t, k);
      SetAsideFreesName(t, r.a, r.b, r.directory, k);
      AsideIsLeaf(t, r.a, r.b, r.directory, k);
      BackupIsLeaf(t, r.a, r.b, r.directory, k);
    }
  }

  predicate Loud(fault: Option<Failure>) { fault.Some? && !Silent(fault) }

  /** The source rename is tried. */
  predicate SourceTried(t: Tree, r: Job, s: Script) {
    && r.changed
    && (Backed(r) ==>
          && s.backup.Some?
          && (Silent(s.aside) || (s.aside.None? && CanMove(t, r.directory, r.b, s.backup.value))))
  }

  /** Which error is reported for a call that fails loudly: that of the backup rename, of
      the source rename unless the restore fails too, of the restore, of the deletion. */
  predicate Reported(t: Tree, r: Job, s: Script, error: Errno) {
    var p := Played(t, r, s);
    && (Backed(r) && s.backup.Some? && Loud(s.aside) ==> error == FilexErrno(s.aside.value))
    && (SourceTried(t, r, s) && Loud(s.source) && (Backed(r) ==> p.course.restored || Silent(s.restore)) ==>
          error == FilexErrno(s.source.value))
    && (SourceTried(t, r, s) && Backed(r) && !p.renamed && Loud(s.restore) ==> error == FilexErrno(s.restore.value))
    && (SourceTried(t, r, s) && Backed(r) && p.renamed && Loud(s.delete) ==> error == FilexErrno(s.delete.value))
  }

  /** A destination that is aside can be renamed back. */
  lemma RestoreIsPossible(t: Tree, a: Key, b: Key, directory: bool, k: Key)
    requires WellFormed(t) && CanSetAside(t, a, b, directory, k)
    ensures CanMove(Move(t, b, k), directory, k, b)
  {
    SetAside(t, a, b, directory, k);
    assert HasParent(t, b) && !(b <= Parent(b));
    StayingParent(t, b, k, b);
  }

  lemma LoudPlay(t: Tree, r: Job, s: Script, k: Key)
    requires Backed(r) && s.backup == Some(k) && s.aside.None? && CanMove(t, r.directory, r.b, k)
    requires Loud(s.source) && s.restore.None? && CanMove(Move(t, r.b, k), r.directory, k, r.b)
    ensures Played(t, r, s) == Play(Course(k, true, false, true, false), QUIET, false, false)
  {
    var c := Course(k, true, false, false, false);
    assert AfterSource(t, r.a, r.b, c) == Move(t, r.b, k);
    assert c.(moved := false) == c;
  }

  /** A source rename that fails loudly is undone by a restore that works. */
  lemma FailureIsUndone(t: Tree, r: Job, s: Script)
    requires WellFormed(t) && Sound(t, r) && Backed(r)
    requires s.backup.Some? && s.backup.value !in t && |s.backup.value| == 2
    requires s.aside.None? && Loud(s.source) && s.restore.None?
    ensures var p := Played(t, r, s); !p.ok && !p.renamed && Final(t, r.a, r.b, p.course) == t
  {
    var k := s.backup.value;
    SoundSetsAside(t, r, k);
    assert HasParent(t, k);
    RestoreIsPossible(t, r.a, r.b, r.directory, k);
    RestoreUndoes(t, r.a, r.b, r.directory, k);
    LoudPlay(t, r, s, k);
    UndoneFinal(t, r.a, r.b, k);
  }

  lemma UndoneFinal(t: Tree, a: Key, b: Key, k: Key)
    ensures Final(t, a, b, Course(k, true, false, true, false)) == Move(Move(t, b, k), k, b)
  {
  }
}
