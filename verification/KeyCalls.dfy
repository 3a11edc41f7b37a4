/**
 What the calls on thread-specific keys do, and what a thread reads in any run of
 calls by any threads, told from the calls alone.
 */
module KeyCalls {
  import opened Wrappers
  import opened ThreadKeys

  // ----- Single calls

  /** A thread starts with null in all slots, and may use them. */
  lemma StartCall(run: seq<State>, i: nat, t: Thread, k: ThreadKeys.Key)
    requires IsRun(run) && i < |run| && t !in run[i].slots
    ensures Enabled(run[i], Start(t))
    ensures var u := Apply(run[i], Start(t));
      && t in u.slots && t !in u.pending && |u.slots[t]| == KEY_COUNT
      && (forall j :: 0 <= j < KEY_COUNT ==> u.slots[t][j] == Slot(0, 0))
      && u.keys == run[i].keys && LastSet(u, t, k) == 0
  {
    RunInv(run, i);
  }

  /** key_create takes the first free definition, with its next generation and the
      destructor; if there is none it changes nothing. */
  lemma CreateCall(s: State, t: Thread, destructor: Option<Destructor>)
    requires TableOk(s) && t in s.slots && t !in s.pending
    requires FirstFree(s.keys) < KEY_COUNT ==> s.keys[FirstFree(s.keys)].generation < MAX_GENERATION
    ensures Enabled(s, Create(t, destructor))
    ensures var u, i := Apply(s, Create(t, destructor)), FirstFree(s.keys);
      if i == KEY_COUNT then u == s
      else
        && !s.keys[i].inUse && u.slots == s.slots && u.pending == s.pending && u.last == s.last
        && u.keys == s.keys[i := Definition(destructor, s.keys[i].generation + 1, true)]
        && Live(u, Key(i, s.keys[i].generation + 1))
        && forall k :: Live(s, k) ==> Live(u, k)
  {
    if FirstFree(s.keys) < KEY_COUNT {
      NextGenerationCounts(s.keys[FirstFree(s.keys)].generation);
    }
  }

  /** key_delete makes exactly this key dead and its definition free; a handle of a key
      that is dead already changes nothing. */
  lemma DeleteCall(s: State, t: Thread, handle: nat)
    requires t in s.slots && t !in s.pending
    ensures Enabled(s, Delete(t, handle))
    ensures var u, k := Apply(s, Delete(t, handle)), KeyOf(handle);
      if Live(s, k) then
        && !Live(u, k) && u.keys[k.index] == Definition(None, k.generation, false)
        && u.slots == s.slots && u.pending == s.pending && u.last == s.last
        && forall l :: l != k ==> (Live(u, l) <==> Live(s, l))
      else u == s
  {
  }

  /** The first half of key_set takes note of the key and the value, that of key_get of
      the key, if the key is live; otherwise the call is over. */
  lemma CheckCalls(s: State, t: Thread, handle: nat, value: Value)
    requires t in s.slots && t !in s.pending
    ensures Enabled(s, SetCheck(t, handle, value)) && Enabled(s, GetCheck(t, handle))
    ensures Apply(s, SetCheck(t, handle, value)) ==
      if Live(s, KeyOf(handle)) then s.(pending := s.pending[t := SetPending(KeyOf(handle), value)]) else s
    ensures Apply(s, GetCheck(t, handle)) ==
      if Live(s, KeyOf(handle)) then s.(pending := s.pending[t := GetPending(KeyOf(handle))]) else s
  {
  }

  /** The second half of key_set stores the value, for this thread and key alone. */
  lemma SetCall(s: State, t: Thread, k: ThreadKeys.Key, value: Value)
    requires Inv(s) && t in s.pending && s.pending[t] == SetPending(k, value)
    ensures Enabled(s, SetWrite(t))
    ensures var u := Apply(s, SetWrite(t));
      && LastSet(u, t, k) == value && t !in u.pending && u.keys == s.keys
      && u.slots[t][k.index] == Slot(value, k.generation)
      && forall w: Thread, l: ThreadKeys.Key :: (w, l) != (t, k) ==> LastSet(u, w, l) == LastSet(s, w, l)
  {
  }

  /** That of key_get stores nothing. */
  lemma GetCall(s: State, t: Thread, k: ThreadKeys.Key)
    requires Inv(s) && t in s.pending && s.pending[t] == GetPending(k)
    ensures Enabled(s, GetRead(t)) && Apply(s, GetRead(t)) == s.(pending := s.pending - {t})
  {
  }

  /** A live key is dead for ever once it is deleted, and nothing else makes it dead. */
  lemma DeletionIsFinal(run: seq<State>, i: nat, j: nat, t: Thread, handle: nat)
    requires IsRun(run) && i < j < |run| && Enabled(run[i], Delete(t, handle)) && Live(run[i], KeyOf(handle))
    requires run[i + 1] == Apply(run[i], Delete(t, handle))
    ensures !Live(run[j], KeyOf(handle))
  {
    RunInv(run, i);
    DeletedStaysRefused(run, i + 1, j, KeyOf(handle));
  }

  lemma LiveUntilDeleted(s: State, e: Event, k: ThreadKeys.Key)
    requires Inv(s) && Enabled(s, e) && Live(s, k)
    ensures Live(Apply(s, e), k) <==> !(e.Delete? && KeyOf(e.handle) == k)
  {
    if e.Create? {
      CreateCall(s, e.t, e.destructor);
    }
  }

  /** A value that is set is read back. */
  lemma SetThenGet(run: seq<State>, i: nat, t: Thread, handle: nat, value: Value)
    requires IsRun(run) && i < |run| && t in run[i].slots && t !in run[i].pending && Live(run[i], KeyOf(handle))
    ensures var s1 := Apply(run[i], SetCheck(t, handle, value));
      && Enabled(s1, SetWrite(t)) && var s2 := Apply(s1, SetWrite(t));
         && Enabled(s2, GetCheck(t, handle)) && var s3 := Apply(s2, GetCheck(t, handle));
            Enabled(s3, GetRead(t)) && Read(s3, t) == value
  {
    RunInv(run, i);
    StepKeepsInv(run[i], SetCheck(t, handle, value));
    SetCall(Apply(run[i], SetCheck(t, handle, value)), t, KeyOf(handle), value);
  }

  // ----- What a run of calls has stored

  /** What is about to be stored, and what has been stored and not been cleared by an
      exit. */
  datatype Record = Record(armed: map<Thread, (ThreadKeys.Key, Value)>, stored: map<(Thread, ThreadKeys.Key), Value>)

  /** A record of the calls: a set of a live key arms its thread with the value it was
      given, its second half stores that, and an exit stores null. */
  function Observe(r: Record, s: State, e: Event): Record {
    match e
    case SetCheck(t, handle, value) =>
      if Live(s, KeyOf(handle)) then r.(armed := r.armed[t := (KeyOf(handle), value)]) else r
    case SetWrite(t) =>
      if t in r.armed then Record(r.armed - {t}, r.stored[(t, r.armed[t].0) := r.armed[t].1]) else r
    case ExitClear(t, i) =>
      if t in s.slots && i < |s.slots[t]| then r.(stored := r.stored[(t, Key(i, s.slots[t][i].generation)) := 0]) else r
    case _ => r
  }

  ghost predicate IsTrace(states: seq<State>, events: seq<Event>) {
    && |states| == |events| + 1 && states[0] == Init()
    && forall i :: 0 <= i < |events| ==> Enabled(states[i], events[i]) && states[i + 1] == Apply(states[i], events[i])
  }

  function Observed(states: seq<State>, events: seq<Event>, n: nat): Record
    requires n <= |events| < |states|
  {
    if n == 0 then Record(map[], map[]) else Observe(Observed(states, events, n - 1), states[n - 1], events[n - 1])
  }

  function ArmedWith(r: Record, t: Thread): Option<(ThreadKeys.Key, Value)> {
    if t in r.armed then Some(r.armed[t]) else None
  }

  function SetUnderWay(s: State, t: Thread): Option<(ThreadKeys.Key, Value)> {
    if t in s.pending && s.pending[t].SetPending? then Some((s.pending[t].k, s.pending[t].value)) else None
  }

  /** The record agrees with the state. */
  ghost predicate Agrees(r: Record, s: State) {
    r.stored == s.last && forall t: Thread :: ArmedWith(r, t) == SetUnderWay(s, t)
  }

  lemma CheckAgrees(r: Record, s: State, e: Event)
    requires Agrees(r, s) && Enabled(s, e) && (e.SetCheck? || e.GetCheck? || e.GetRead?)
    ensures Agrees(Observe(r, s, e), Apply(s, e))
  {
    var r', s' := Observe(r, s, e), Apply(s, e);
    forall t: Thread
      ensures ArmedWith(r', t) == SetUnderWay(s', t)
    {
      assert ArmedWith(r, t) == SetUnderWay(s, t);
    }
  }

  lemma WriteAgrees(r: Record, s: State, t: Thread)
    requires Agrees(r, s) && Enabled(s, SetWrite(t))
    ensures Agrees(Observe(r, s, SetWrite(t)), Apply(s, SetWrite(t)))
  {
    var r', s' := Observe(r, s, SetWrite(t)), Apply(s, SetWrite(t));
    assert ArmedWith(r, t) == SetUnderWay(s, t);
    forall u: Thread
      ensures ArmedWith(r', u) == SetUnderWay(s', u)
    {
      assert ArmedWith(r, u) == SetUnderWay(s, u);
    }
  }

  lemma RestAgrees(r: Record, s: State, e: Event)
    requires Agrees(r, s) && Enabled(s, e) && (e.Start? || e.Create? || e.Delete? || e.ExitClear?)
    ensures Agrees(Observe(r, s, e), Apply(s, e))
  {
    var r', s' := Observe(r, s, e), Apply(s, e);
    forall t: Thread
      ensures ArmedWith(r', t) == SetUnderWay(s', t)
    {
      assert ArmedWith(r, t) == SetUnderWay(s, t);
    }
  }

  lemma StepAgrees(r: Record, s: State, e: Event)
    requires Agrees(r, s) && Enabled(s, e)
    ensures Agrees(Observe(r, s, e), Apply(s, e))
  {
    match e
    case SetCheck(_, _, _) => CheckAgrees(r, s, e);
    case GetCheck(_, _) => CheckAgrees(r, s, e);
    case GetRead(_) => CheckAgrees(r, s, e);
    case SetWrite(t) => WriteAgrees(r, s, t);
    case _ => RestAgrees(r, s, e);
  }

  lemma {:induction false} TraceAgrees(states: seq<State>, events: seq<Event>, n: nat)
    requires IsTrace(states, events) && n <= |events|
    ensures Inv(states[n]) && Agrees(Observed(states, events, n), states[n])
  {
    if n > 0 {
      TraceAgrees(states, events, n - 1);
      StepKeepsInv(states[n - 1], events[n - 1]);
      StepAgrees(Observed(states, events, n - 1), states[n - 1], events[n - 1]);
    }
  }

  /** In every run of calls a get returns the value that its thread's last completed
      set through this very key was given, null if there was none or an exit has
      cleared it since. */
  lemma GetReturnsWhatWasSet(states: seq<State>, events: seq<Event>, n: nat, t: Thread)
    requires IsTrace(states, events) && n <= |events| && Enabled(states[n], GetRead(t))
    ensures var stored, k := Observed(states, events, n).stored, states[n].pending[t].k;
      Read(states[n], t) == if (t, k) in stored then stored[(t, k)] else 0
  {
    TraceAgrees(states, events, n);
    assert SlotOk(states[n], t, states[n].pending[t].k.index);
  }
}
