/**
 __cxa_guard_acquire / release / abort over one recursive mutex, as a step system
 with one step per guard-byte access or mutex call.  A thread calls release or
 abort only for a guard whose acquire returned 1 to it.
 */
module StaticGuard {
  import opened Fifo
  import opened Wrappers

  type Thread = nat
  type GuardId = nat

  /** The two guard bytes; `completions` is history. */
  datatype Guard = Guard(initialized: bool, inProgress: bool, completions: nat)

  datatype Pc =
    | Idle
    | WantLock(g: GuardId)             // the first check saw "not initialised"
    | Locked(g: GuardId)               // holds the mutex, about to check again
    | Leaving(g: GuardId)              // saw "initialised", about to unlock
    | Releasing(g: GuardId)            // in-progress cleared, about to set initialised
    | Published(g: GuardId)            // initialised set, about to unlock
    | Aborting(g: GuardId)             // in-progress cleared, about to unlock
    | Fatal(g: GuardId)                // recursive initialisation detected

  /** `stack` holds the guards whose initialisers the thread is running. */
  datatype Context = Context(pc: Pc, stack: seq<GuardId>)

  datatype Answer = Answer(t: Thread, g: GuardId, value: int)

  datatype State = State(
    owner: Option<Thread>, count: nat,
    guards: map<GuardId, Guard>, threads: map<Thread, Context>,
    answers: seq<Answer>)              // what acquire has returned so far

  function G(s: State, g: GuardId): Guard { if g in s.guards then s.guards[g] else Guard(false, false, 0) }

  function T(s: State, t: Thread): Context { if t in s.threads then s.threads[t] else Context(Idle, []) }

  datatype Event =
    | FastCheck(t: Thread, g: GuardId)
    | Lock(t: Thread)
    | Recheck(t: Thread)
    | Release(t: Thread, g: GuardId)
    | Publish(t: Thread)
    | Abort(t: Thread, g: GuardId)
    | Unlock(t: Thread)

  function Init(): State { State(None, 0, map[], map[], []) }

  predicate Unlocks(pc: Pc) { pc.Leaving? || pc.Published? || pc.Aborting? }

  predicate Enabled(s: State, e: Event) {
    match e
    case FastCheck(t, _) => T(s, t).pc.Idle?
    case Lock(t) => T(s, t).pc.WantLock? && (s.owner == None || s.owner == Some(t))
    case Recheck(t) => T(s, t).pc.Locked?
    case Release(t, g) => T(s, t).pc.Idle? && g in T(s, t).stack
    case Publish(t) => T(s, t).pc.Releasing?
    case Abort(t, g) => T(s, t).pc.Idle? && g in T(s, t).stack
    case Unlock(t) => Unlocks(T(s, t).pc)
  }

  function SetPc(s: State, t: Thread, pc: Pc): State { s.(threads := s.threads[t := T(s, t).(pc := pc)]) }

  function SetGuard(s: State, g: GuardId, v: Guard): State { s.(guards := s.guards[g := v]) }

  function Drop(s: State, t: Thread, g: GuardId, pc: Pc): State {
    s.(threads := s.threads[t := Context(pc, Without(T(s, t).stack, g))])
  }

  function Answered(s: State, t: Thread, g: GuardId, value: int): State {
    s.(answers := s.answers + [Answer(t, g, value)])
  }

  function Apply(s: State, e: Event): State
    requires Enabled(s, e)
  {
    match e
    case FastCheck(t, g) =>
      if G(s, g).initialized then Answered(s, t, g, 0) else SetPc(s, t, WantLock(g))
    case Lock(t) => SetPc(s, t, Locked(T(s, t).pc.g)).(owner := Some(t), count := s.count + 1)
    case Recheck(t) =>
      var g := T(s, t).pc.g;
      if G(s, g).initialized then SetPc(s, t, Leaving(g))
      else if G(s, g).inProgress then SetPc(s, t, Fatal(g))
      else
        Answered(SetGuard(s, g, G(s, g).(inProgress := true)), t, g, 1).(
          threads := s.threads[t := Context(Idle, T(s, t).stack + [g])])
    case Release(t, g) => SetGuard(Drop(s, t, g, Releasing(g)), g, G(s, g).(inProgress := false))
    case Publish(t) =>
      var g := T(s, t).pc.g;
      SetGuard(SetPc(s, t, Published(g)), g, G(s, g).(initialized := true, completions := G(s, g).completions + 1))
    case Abort(t, g) => SetGuard(Drop(s, t, g, Aborting(g)), g, G(s, g).(inProgress := false))
    case Unlock(t) =>
      var pc := T(s, t).pc;
      var s1 := if pc.Leaving? then Answered(s, t, pc.g, 0) else s;
      SetPc(s1, t, Idle).(count := if s.count > 0 then s.count - 1 else 0,
                          owner := if s.count <= 1 then None else s.owner)
  }

  // ----- Invariant

  /** Steps at which a thread holds the mutex once more than its stack says. */
  predicate Inside(pc: Pc) { !pc.Idle? && !pc.WantLock? }

  function Holding(c: Context): nat { |c.stack| + if Inside(c.pc) then 1 else 0 }

  /** Only the owner is inside an initialiser, and its count is its nesting. */
  ghost predicate MutexOk(s: State) {
    && (forall t :: t in s.threads && s.owner != Some(t) ==> Holding(s.threads[t]) == 0)
    && s.count == (if s.owner.Some? then Holding(T(s, s.owner.value)) else 0)
    && (s.owner.Some? ==> s.count > 0)
  }

  function Nested(s: State): seq<GuardId> { if s.owner.Some? then T(s, s.owner.value).stack else [] }

  ghost predicate GuardOk(s: State, g: GuardId) {
    && (G(s, g).inProgress <==> g in Nested(s))
    && (G(s, g).initialized ==> !G(s, g).inProgress)
    && G(s, g).completions == (if G(s, g).initialized then 1 else 0)
  }

  ghost predicate PcOk(s: State, t: Thread) {
    match T(s, t).pc
    case Leaving(g) => G(s, g).initialized
    case Releasing(g) => !G(s, g).initialized && !G(s, g).inProgress
    case Published(g) => G(s, g).initialized
    case Fatal(g) => g in T(s, t).stack
    case _ => true
  }

  ghost predicate Inv(s: State) {
    && MutexOk(s)
    && Distinct(Nested(s))
    && (forall g :: GuardOk(s, g))
    && (forall t :: t in s.threads ==> PcOk(s, t))
    && (forall i :: 0 <= i < |s.answers| && s.answers[i].value == 0 ==> G(s, s.answers[i].g).initialized)
  }

  lemma HolderIsOwner(s: State, t: Thread)
    requires MutexOk(s) && Holding(T(s, t)) > 0
    ensures s.owner == Some(t)
  {
  }

  lemma DropOne(stack: seq<GuardId>, g: GuardId)
    requires Distinct(stack) && g in stack
    ensures |Without(stack, g)| == |stack| - 1 && Distinct(Without(stack, g))
    ensures forall x :: x in Without(stack, g) <==> x in stack && x != g
  {
    var k :| 0 <= k < |stack| && stack[k] == g;
    WithoutAt(stack, k);
    WithoutMembers(stack, g);
  }

  lemma FastCheckKeepsInv(s: State, t: Thread, g: GuardId)
    requires Inv(s) && Enabled(s, FastCheck(t, g))
    ensures Inv(Apply(s, FastCheck(t, g)))
  {
    var s' := Apply(s, FastCheck(t, g));
    assert forall x :: GuardOk(s, x) && G(s', x) == G(s, x);
    assert forall u :: u in s.threads ==> PcOk(s, u);
    assert Nested(s') == Nested(s);
  }

  lemma LockKeepsInv(s: State, t: Thread)
    requires Inv(s) && Enabled(s, Lock(t))
    ensures Inv(Apply(s, Lock(t)))
  {
    var s' := Apply(s, Lock(t));
    assert forall x :: GuardOk(s, x) && G(s', x) == G(s, x);
    assert forall u :: u in s.threads ==> PcOk(s, u);
    assert Nested(s') == Nested(s);
  }

  lemma RecheckKeepsInv(s: State, t: Thread)
    requires Inv(s) && Enabled(s, Recheck(t))
    ensures Inv(Apply(s, Recheck(t)))
  {
    var s' := Apply(s, Recheck(t));
    var g := T(s, t).pc.g;
    HolderIsOwner(s, t);
    assert GuardOk(s, g);
    forall x ensures GuardOk(s', x) {
      assert GuardOk(s, x);
    }
    forall u | u in s'.threads ensures PcOk(s', u) {
      assert u in s.threads ==> PcOk(s, u);
    }
  }

  lemma LeaveInitializerKeepsInv(s: State, e: Event)
    requires Inv(s) && Enabled(s, e) && (e.Release? || e.Abort?)
    ensures Inv(Apply(s, e))
  {
    var s' := Apply(s, e);
    var t, g := e.t, e.g;
    HolderIsOwner(s, t);
    DropOne(T(s, t).stack, g);
    assert GuardOk(s, g);
    forall x ensures GuardOk(s', x) {
      assert GuardOk(s, x);
    }
    forall u | u in s'.threads ensures PcOk(s', u) {
      assert u in s.threads ==> PcOk(s, u);
    }
  }

  lemma PublishKeepsInv(s: State, t: Thread)
    requires Inv(s) && Enabled(s, Publish(t))
    ensures Inv(Apply(s, Publish(t)))
  {
    var s' := Apply(s, Publish(t));
    var g := T(s, t).pc.g;
    HolderIsOwner(s, t);
    assert PcOk(s, t);
    forall x ensures GuardOk(s', x) {
      assert GuardOk(s, x);
    }
    forall u | u in s'.threads ensures PcOk(s', u) {
      assert u in s.threads ==> PcOk(s, u);
    }
  }

  lemma UnlockKeepsInv(s: State, t: Thread)
    requires Inv(s) && Enabled(s, Unlock(t))
    ensures Inv(Apply(s, Unlock(t)))
  {
    var s' := Apply(s, Unlock(t));
    HolderIsOwner(s, t);
    assert PcOk(s, t);
    forall x ensures GuardOk(s', x) {
      assert GuardOk(s, x);
    }
    forall u | u in s'.threads ensures PcOk(s', u) {
      assert u in s.threads ==> PcOk(s, u);
    }
  }

  lemma StepKeepsInv(s: State, e: Event)
    requires Inv(s) && Enabled(s, e)
    ensures Inv(Apply(s, e))
  {
    match e
    case FastCheck(t, g) => FastCheckKeepsInv(s, t, g);
    case Lock(t) => LockKeepsInv(s, t);
    case Recheck(t) => RecheckKeepsInv(s, t);
    case Release(t, g) => LeaveInitializerKeepsInv(s, e);
    case Publish(t) => PublishKeepsInv(s, t);
    case Abort(t, g) => LeaveInitializerKeepsInv(s, e);
    case Unlock(t) => UnlockKeepsInv(s, t);
  }

  // ----- What every run promises

  ghost predicate Step(s: State, s': State) {
    exists e :: Enabled(s, e) && s' == Apply(s, e)
  }

  ghost predicate IsRun(run: seq<State>) {
    && run != [] && run[0] == Init()
    && forall i: nat {:trigger StepAt(run, i)} :: i < |run| - 1 ==> StepAt(run, i)
  }

  ghost predicate StepAt(run: seq<State>, i: nat) { i < |run| - 1 && Step(run[i], run[i + 1]) }

  lemma {:induction false} RunInv(run: seq<State>, i: nat)
    requires IsRun(run) && i < |run|
    ensures Inv(run[i])
  {
    if i > 0 {
      RunInv(run, i - 1);
      assert StepAt(run, i - 1);
      var e :| Enabled(run[i - 1], e) && run[i] == Apply(run[i - 1], e);
      StepKeepsInv(run[i - 1], e);
    }
  }

  /** At most one thread is inside initialisers at all, none is inside one
      initialiser twice, and the mutex count is that thread's nesting depth, plus
      one while it is inside acquire, release or abort. */
  lemma OneInitializingThread(run: seq<State>, i: nat, t: Thread, u: Thread)
    requires IsRun(run) && i < |run| && T(run[i], t).stack != []
    ensures T(run[i], u).stack != [] ==> u == t
    ensures run[i].owner == Some(t) && run[i].count == Holding(T(run[i], t))
    ensures Distinct(T(run[i], t).stack)
  {
    RunInv(run, i);
    HolderIsOwner(run[i], t);
  }

  /** A guard completes at most once, and exactly when its byte says so. */
  lemma CompletesAtMostOnce(run: seq<State>, i: nat, g: GuardId)
    requires IsRun(run) && i < |run|
    ensures G(run[i], g).completions <= 1
    ensures G(run[i], g).initialized <==> G(run[i], g).completions == 1
  {
    RunInv(run, i);
    assert GuardOk(run[i], g);
  }

  lemma StepKeepsCompletion(s: State, e: Event, g: GuardId)
    requires Enabled(s, e) && G(s, g).initialized
    ensures G(Apply(s, e), g).initialized
  {
  }

  /** A completed guard never reverts and is never claimed again. */
  lemma {:induction false} CompletionIsStable(run: seq<State>, i: nat, j: nat, g: GuardId)
    requires IsRun(run) && i <= j < |run| && G(run[i], g).initialized
    ensures G(run[j], g).initialized && !G(run[j], g).inProgress
    decreases j - i
  {
    RunInv(run, j);
    assert GuardOk(run[j], g);
    if i < j {
      CompletionIsStable(run, i, j - 1, g);
      assert StepAt(run, j - 1);
      var e :| Enabled(run[j - 1], e) && run[j] == Apply(run[j - 1], e);
      StepKeepsCompletion(run[j - 1], e, g);
    }
  }

  /** acquire answers 0 only for a completed guard. */
  lemma ZeroMeansCompleted(run: seq<State>, i: nat, k: nat)
    requires IsRun(run) && i < |run| && k < |run[i].answers| && run[i].answers[k].value == 0
    ensures G(run[i], run[i].answers[k].g).completions == 1
  {
    RunInv(run, i);
    assert GuardOk(run[i], run[i].answers[k].g);
  }

  /** The fatal branch is taken exactly for a thread that re-enters an initialiser
      it is running itself. */
  lemma FatalMeansRecursion(run: seq<State>, i: nat, t: Thread)
    requires IsRun(run) && i < |run| && Enabled(run[i], Recheck(t))
    ensures T(Apply(run[i], Recheck(t)), t).pc.Fatal? <==> T(run[i], t).pc.g in T(run[i], t).stack
  {
    RunInv(run, i);
    HolderIsOwner(run[i], t);
    assert GuardOk(run[i], T(run[i], t).pc.g);
  }

  /** A guard that is not completed can be claimed by any idle thread once the
      mutex is free; in particular after an abort. */
  lemma AbortedGuardCanBeClaimed(run: seq<State>, i: nat, t: Thread, g: GuardId)
    requires IsRun(run) && i < |run| && run[i].owner == None && T(run[i], t).pc.Idle? && !G(run[i], g).initialized
    ensures Enabled(run[i], FastCheck(t, g))
    ensures var s1 := Apply(run[i], FastCheck(t, g));
      && Enabled(s1, Lock(t))
      && var s2 := Apply(s1, Lock(t));
         && Enabled(s2, Recheck(t))
         && var s3 := Apply(s2, Recheck(t));
            s3.answers == run[i].answers + [Answer(t, g, 1)] && T(s3, t).stack == T(run[i], t).stack + [g]
  {
    RunInv(run, i);
    assert GuardOk(run[i], g);
  }

  /** Aborting leaves the guard uncompleted and unclaimed. */
  lemma AbortFreesGuard(run: seq<State>, i: nat, t: Thread, g: GuardId)
    requires IsRun(run) && i < |run| && Enabled(run[i], Abort(t, g))
    ensures var s := Apply(run[i], Abort(t, g)); !G(s, g).initialized && !G(s, g).inProgress && g !in T(s, t).stack
  {
    RunInv(run, i);
    HolderIsOwner(run[i], t);
    assert GuardOk(run[i], g);
    DropOne(T(run[i], t).stack, g);
  }

  // ----- Calls

  /** The next step of a call under way. */
  function Next(s: State, t: Thread): Event
    requires !T(s, t).pc.Idle? && !T(s, t).pc.Fatal?
  {
    match T(s, t).pc
    case WantLock(_) => Lock(t)
    case Locked(_) => Recheck(t)
    case Releasing(_) => Publish(t)
    case _ => Unlock(t)
  }

  /** A call under way can go on unless it waits for the mutex, which another thread
      owns. */
  lemma CallsGoOn(run: seq<State>, i: nat, t: Thread)
    requires IsRun(run) && i < |run| && !T(run[i], t).pc.Idle? && !T(run[i], t).pc.Fatal?
    ensures Enabled(run[i], Next(run[i], t)) <==>
      !(T(run[i], t).pc.WantLock? && run[i].owner.Some? && run[i].owner != Some(t))
  {
  }

  /** A thread without the mutex, or within it, and what it is doing. */
  function At(s: State, t: Thread, c: Context): State { s.(threads := s.threads[t := c]) }

  /** acquire of a completed guard answers 0 at once and changes nothing else. */
  lemma AcquireOfCompleted(s: State, t: Thread, g: GuardId)
    requires T(s, t).pc.Idle? && G(s, g).initialized
    ensures Enabled(s, FastCheck(t, g)) && Apply(s, FastCheck(t, g)) == s.(answers := s.answers + [Answer(t, g, 0)])
  {
  }

  /** acquire of any other guard asks for the mutex. */
  lemma AcquireOfOther(s: State, t: Thread, g: GuardId)
    requires T(s, t).pc.Idle? && !G(s, g).initialized
    ensures Enabled(s, FastCheck(t, g))
    ensures Apply(s, FastCheck(t, g)) == At(s, t, Context(WantLock(g), T(s, t).stack))
  {
  }

  /** With the mutex, and however deeply nested in other initialisers, it claims the
      guard and keeps the mutex once more; or, if the guard has been completed in the
      meantime, answers 0 and leaves the mutex as it was. */
  lemma AcquireWithMutex(run: seq<State>, i: nat, t: Thread, g: GuardId)
    requires IsRun(run) && i < |run| && T(run[i], t).pc == WantLock(g) && g !in T(run[i], t).stack
    requires run[i].owner == None || run[i].owner == Some(t)
    ensures Enabled(run[i], Lock(t)) && Enabled(Apply(run[i], Lock(t)), Recheck(t))
    ensures var s, u := run[i], Apply(Apply(run[i], Lock(t)), Recheck(t));
      var stack := T(s, t).stack;
      if G(s, g).initialized then
        && Enabled(u, Unlock(t))
        && var v := Apply(u, Unlock(t));
           && v.owner == s.owner && v.count == s.count && v.guards == s.guards
           && v.threads == s.threads[t := Context(Idle, stack)] && v.answers == s.answers + [Answer(t, g, 0)]
      else
        && u.owner == Some(t) && u.count == s.count + 1 && u.guards == s.guards[g := Guard(false, true, 0)]
        && u.threads == s.threads[t := Context(Idle, stack + [g])] && u.answers == s.answers + [Answer(t, g, 1)]
  {
    RunInv(run, i);
    assert GuardOk(run[i], g);
    if run[i].owner == None {
      assert t in run[i].threads ==> Holding(run[i].threads[t]) == 0;
    }
  }

  /** What is left of the mutex once one initialiser has been left. */
  predicate LeftOne(s: State, v: State, t: Thread, g: GuardId) {
    && v.count == s.count - 1 && v.owner == (if s.count == 1 then None else Some(t)) && v.answers == s.answers
    && v.threads == s.threads[t := Context(Idle, Without(T(s, t).stack, g))]
  }

  /** release completes its guard, and gives the mutex back once. */
  lemma ReleaseCompletes(run: seq<State>, i: nat, t: Thread, g: GuardId)
    requires IsRun(run) && i < |run| && T(run[i], t).pc.Idle? && g in T(run[i], t).stack
    ensures Enabled(run[i], Release(t, g)) && Enabled(Apply(run[i], Release(t, g)), Publish(t))
    ensures Enabled(Apply(Apply(run[i], Release(t, g)), Publish(t)), Unlock(t))
    ensures var s, v := run[i], Apply(Apply(Apply(run[i], Release(t, g)), Publish(t)), Unlock(t));
      LeftOne(s, v, t, g) && v.guards == s.guards[g := Guard(true, false, 1)]
  {
    RunInv(run, i);
    HolderIsOwner(run[i], t);
    assert GuardOk(run[i], g);
  }

  /** abort leaves the guard as it was before its acquire, and gives the mutex back
      once. */
  lemma AbortGivesBack(run: seq<State>, i: nat, t: Thread, g: GuardId)
    requires IsRun(run) && i < |run| && T(run[i], t).pc.Idle? && g in T(run[i], t).stack
    ensures Enabled(run[i], Abort(t, g)) && Enabled(Apply(run[i], Abort(t, g)), Unlock(t))
    ensures var s, v := run[i], Apply(Apply(run[i], Abort(t, g)), Unlock(t));
      LeftOne(s, v, t, g) && v.guards == s.guards[g := Guard(false, false, 0)]
  {
    RunInv(run, i);
    HolderIsOwner(run[i], t);
    assert GuardOk(run[i], g);
  }
}
