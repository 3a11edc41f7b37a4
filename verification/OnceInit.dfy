/**
 once() on one handle: the state word is guarded by the initialisation mutex, the
 function runs outside it.  One step per mutex call or access of the word.
 */
module OnceInit {
  import opened Wrappers

  type Thread = nat

  datatype Pc =
    | Outside                          // not in once()
    | Want                             // about to lock
    | Checking                         // holds the mutex
    | LeaveDone                        // holds the mutex, saw 2, will return 0
    | LeaveToRun                       // holds the mutex, has claimed the function
    | LeaveToSleep                     // holds the mutex, saw 1
    | Running                          // inside the function
    | WantStore(ok: bool)              // the function returned or threw
    | Storing(ok: bool)                // holds the mutex
    | LeaveStored(ok: bool)            // holds the mutex, word stored
    | Returned                         // returned 0
    | Threw

  /** `runner` and `completions` are history. */
  datatype State = State(
    word: int, owner: Option<Thread>, threads: map<Thread, Pc>, runner: Option<Thread>, completions: nat)

  datatype Event =
    | Enter(t: Thread)
    | Lock(t: Thread)
    | Check(t: Thread)
    | Unlock(t: Thread)
    | Finish(t: Thread, ok: bool)
    | Store(t: Thread)

  function Init(): State { State(0, None, map[], None, 0) }

  function P(s: State, t: Thread): Pc { if t in s.threads then s.threads[t] else Outside }

  predicate HoldsMutex(pc: Pc) {
    pc.Checking? || pc.LeaveDone? || pc.LeaveToRun? || pc.LeaveToSleep? || pc.Storing? || pc.LeaveStored?
  }

  predicate Leaves(pc: Pc) { pc.LeaveDone? || pc.LeaveToRun? || pc.LeaveToSleep? || pc.LeaveStored? }

  predicate Enabled(s: State, e: Event) {
    match e
    case Enter(t) => P(s, t).Outside? || P(s, t).Returned? || P(s, t).Threw?
    case Lock(t) => (P(s, t).Want? || P(s, t).WantStore?) && s.owner == None
    case Check(t) => P(s, t).Checking?
    case Unlock(t) => Leaves(P(s, t))
    case Finish(t, _) => P(s, t).Running?
    case Store(t) => P(s, t).Storing?
  }

  function SetPc(s: State, t: Thread, pc: Pc): State { s.(threads := s.threads[t := pc]) }

  function Apply(s: State, e: Event): State
    requires Enabled(s, e)
  {
    match e
    case Enter(t) => SetPc(s, t, Want)
    case Lock(t) => SetPc(s, t, if P(s, t).Want? then Checking else Storing(P(s, t).ok)).(owner := Some(t))
    case Check(t) =>
      if s.word == 2 then SetPc(s, t, LeaveDone)
      else if s.word == 0 then SetPc(s, t, LeaveToRun).(word := 1, runner := Some(t))
      else SetPc(s, t, LeaveToSleep)
    case Unlock(t) =>
      var pc := match P(s, t)
                case LeaveDone => Returned
                case LeaveToRun => Running
                case LeaveStored(ok) => if ok then Returned else Threw
                case _ => Want;
      SetPc(s, t, pc).(owner := None)
    case Finish(t, ok) => SetPc(s, t, WantStore(ok))
    case Store(t) =>
      var ok := P(s, t).ok;
      SetPc(s, t, LeaveStored(ok)).(
        word := if ok then 2 else 0, runner := None, completions := s.completions + if ok then 1 else 0)
  }

  /** The thread has claimed the function and not stored its result yet. */
  predicate Claimed(pc: Pc) { pc.LeaveToRun? || pc.Running? || pc.WantStore? || pc.Storing? }

  predicate Succeeded(pc: Pc) { pc.LeaveDone? || pc.Returned? || (pc.LeaveStored? && pc.ok) }

  ghost predicate Inv(s: State) {
    && (s.word == 0 || s.word == 1 || s.word == 2)
    && (s.word == 1 <==> s.runner.Some?)
    && s.completions == (if s.word == 2 then 1 else 0)
    && (forall t: Thread :: Claimed(P(s, t)) <==> s.runner == Some(t))
    && (forall t: Thread :: HoldsMutex(P(s, t)) <==> s.owner == Some(t))
    && (forall t: Thread :: Succeeded(P(s, t)) ==> s.word == 2)
  }

  lemma StepKeepsInv(s: State, e: Event)
    requires Inv(s) && Enabled(s, e)
    ensures Inv(Apply(s, e))
  {
    var s' := Apply(s, e);
    assert P(s', e.t) == s'.threads[e.t];
    assert forall t: Thread :: t != e.t ==> P(s', t) == P(s, t);
    assert Claimed(P(s, e.t)) <==> s.runner == Some(e.t);
    assert HoldsMutex(P(s, e.t)) <==> s.owner == Some(e.t);
  }

  ghost predicate Step(s: State, s': State) {
    exists e :: Enabled(s, e) && s' == Apply(s, e)
  }

  ghost predicate IsRun(run: seq<State>) {
    && run != [] && run[0] == Init()
    && forall i: nat {:trigger StepAt(run, i)} :: i < |run| - 1 ==> StepAt(run, i)
  }

  ghost predicate StepAt(run: seq<State>, i: nat) { i < |run| - 1 && Step(run[i], run[i + 1]) }

  lemma {:induction false} RunInv(run: seq<State>, i: nat)
    requires IsRun(run) && i < |run|
    ensures Inv(run[i])
  {
    if i > 0 {
      RunInv(run, i - 1);
      assert StepAt(run, i - 1);
      var e :| Enabled(run[i - 1], e) && run[i] == Apply(run[i - 1], e);
      StepKeepsInv(run[i - 1], e);
    }
  }

  /** The function never runs twice at once and completes at most once; a caller
      that got 0 back did so after the completion, which is never taken back. */
  lemma OnceIsOnce(run: seq<State>, i: nat, j: nat, t: Thread, u: Thread)
    requires IsRun(run) && i <= j < |run|
    ensures P(run[i], t).Running? && P(run[i], u).Running? ==> t == u
    ensures run[j].completions <= 1 && run[i].completions <= run[j].completions
    ensures P(run[i], t).Returned? ==> run[j].completions == 1 && !P(run[j], u).Running?
  {
    RunInv(run, i);
    RunInv(run, j);
    CompletionStays(run, i, j);
    assert Claimed(P(run[i], t)) <==> run[i].runner == Some(t);
    assert Claimed(P(run[j], u)) <==> run[j].runner == Some(u);
  }

  lemma {:induction false} CompletionStays(run: seq<State>, i: nat, j: nat)
    requires IsRun(run) && i <= j < |run|
    ensures run[i].completions <= run[j].completions
    decreases j - i
  {
    if i < j {
      CompletionStays(run, i, j - 1);
      assert StepAt(run, j - 1);
    }
  }

  /** Without a runner the word only changes when a check claims the function. */
  lemma IdleWordStays(s: State, e: Event)
    requires Inv(s) && Enabled(s, e) && s.runner == None && Apply(s, e).runner == None
    ensures Apply(s, e).word == s.word
  {
  }

  lemma {:induction false} WordStaysZero(run: seq<State>, i: nat, j: nat)
    requires IsRun(run) && i <= j < |run| && run[i].word == 0 && forall m :: i <= m <= j ==> run[m].runner == None
    ensures run[j].word == 0
    decreases j
  {
    if i < j {
      WordStaysZero(run, i, j - 1);
      RunInv(run, j - 1);
      assert StepAt(run, j - 1);
      var e :| Enabled(run[j - 1], e) && run[j] == Apply(run[j - 1], e);
      IdleWordStays(run[j - 1], e);
    }
  }

  /** After an exception of the function in thread t, the first thread to check the
      word, t itself included, claims the function again, and nothing has been
      completed. */
  lemma ThrownFunctionCanRunAgain(run: seq<State>, i: nat, j: nat, t: Thread, u: Thread)
    requires IsRun(run) && i < j < |run| && P(run[i], t) == Storing(false) && run[i + 1] == Apply(run[i], Store(t))
    requires (forall m :: i < m <= j ==> run[m].runner == None) && Enabled(run[j], Check(u))
    ensures run[i + 1].word == 0 && run[i + 1].completions == 0 && P(run[i + 1], t) == LeaveStored(false)
    ensures run[j].completions == 0 && Apply(run[j], Check(u)).runner == Some(u) &&
      P(Apply(run[j], Check(u)), u).LeaveToRun?
  {
    RunInv(run, i);
    RunInv(run, i + 1);
    assert Claimed(P(run[i], t)) <==> run[i].runner == Some(t);
    WordStaysZero(run, i + 1, j);
    RunInv(run, j);
  }

  // ----- Calls

  /** The next step of a call; a function that is running may also throw. */
  function Next(s: State, t: Thread): Event {
    match P(s, t)
    case Want => Lock(t)
    case WantStore(_) => Lock(t)
    case Checking => Check(t)
    case Running => Finish(t, true)
    case Storing(_) => Store(t)
    case Outside => Enter(t)
    case Returned => Enter(t)
    case Threw => Enter(t)
    case _ => Unlock(t)
  }

  /** Every call can go on, or waits for the mutex, whose owner can. */
  lemma CallsGoOn(run: seq<State>, i: nat, t: Thread)
    requires IsRun(run) && i < |run|
    ensures Enabled(run[i], Next(run[i], t)) ||
            (run[i].owner.Some? && run[i].owner != Some(t) && Enabled(run[i], Next(run[i], run[i].owner.value)))
  {
    RunInv(run, i);
    var s := run[i];
    assert s.owner.Some? ==> HoldsMutex(P(s, s.owner.value));
  }

  /** Where a thread is in a call, and the rest of the state. */
  function At(s: State, t: Thread, pc: Pc): State { s.(threads := s.threads[t := pc]) }

  /** A call begins. */
  lemma CallBegins(s: State, t: Thread)
    requires P(s, t).Outside? || P(s, t).Returned? || P(s, t).Threw?
    ensures Enabled(s, Enter(t)) && Apply(s, Enter(t)) == At(s, t, Want) && P(At(s, t, Want), t) == Want
  {
  }

  /** A call that finds the function completed returns 0 and changes nothing, one
      that finds it running tries again, and one that finds neither runs it. */
  lemma CallDecides(s: State, t: Thread)
    requires P(s, t).Want? && s.owner == None && 0 <= s.word <= 2
    ensures Enabled(s, Lock(t)) && Enabled(Apply(s, Lock(t)), Check(t))
    ensures Enabled(Apply(Apply(s, Lock(t)), Check(t)), Unlock(t))
    ensures Apply(Apply(Apply(s, Lock(t)), Check(t)), Unlock(t)) ==
      if s.word == 2 then At(s, t, Returned)
      else if s.word == 1 then At(s, t, Want)
      else At(s, t, Running).(word := 1, runner := Some(t))
  {
  }

  /** When the function has returned the word says so for good and the call returns
      0; when it has thrown the word is as before and the call throws. */
  lemma CallEnds(s: State, t: Thread, ok: bool)
    requires P(s, t).Running? && s.owner == None
    ensures Enabled(s, Finish(t, ok)) && Enabled(Apply(s, Finish(t, ok)), Lock(t))
    ensures Enabled(Apply(Apply(s, Finish(t, ok)), Lock(t)), Store(t))
    ensures Enabled(Apply(Apply(Apply(s, Finish(t, ok)), Lock(t)), Store(t)), Unlock(t))
    ensures Apply(Apply(Apply(Apply(s, Finish(t, ok)), Lock(t)), Store(t)), Unlock(t)) ==
      if ok then At(s, t, Returned).(word := 2, runner := None, completions := s.completions + 1)
      else At(s, t, Threw).(word := 0, runner := None)
  {
  }
}
