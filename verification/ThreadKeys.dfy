/**
 Thread-specific keys with generation-tagged handles.  Operations of different
 threads interleave between the mutex-protected look at the key table and the
 unprotected access to the thread's own slot.
 */
module ThreadKeys {
  import opened Arithmetic
  import opened Bits
  import opened Wrappers

  type Thread = nat
  type Value = nat                     // 0 is the null pointer
  type Destructor = nat

  const KEY_COUNT := 16
  const INDEX_BITS := 8
  const MAX_GENERATION := 0xFF_FFFF    // KEY_GENERATION_MASK >> KEY_INDEX_BITS

  // ----- Handles

  datatype Key = Key(index: nat, generation: nat)

  function MakeKey(k: Key): nat { Or(k.generation * Pow2(INDEX_BITS), k.index) }

  function KeyOf(handle: nat): Key { Key(And(handle, Pow2(INDEX_BITS) - 1), handle / Pow2(INDEX_BITS)) }

  /** A handle fits 32 bits and decodes to the index and generation it was made of. */
  lemma HandleRoundTrip(k: Key)
    requires k.index < KEY_COUNT && k.generation <= MAX_GENERATION
    ensures KeyOf(MakeKey(k)) == k && MakeKey(k) < 0x1_0000_0000
  {
    Pow2Values();
    OrIsSum(k.generation, k.index, INDEX_BITS);
    AndLowMask(MakeKey(k), INDEX_BITS);
    DivModUnique(MakeKey(k), 256, k.generation, k.index);
  }

  /** The generation counter: masked to 24 bits and never zero. */
  function NextGeneration(g: nat): nat {
    var n := And(g + 1, MAX_GENERATION);
    if n == 0 then 1 else n
  }

  lemma NextGenerationCounts(g: nat)
    requires g <= MAX_GENERATION
    ensures NextGeneration(g) == if g < MAX_GENERATION then g + 1 else 1
  {
    MaskedGeneration(g + 1);
    if g < MAX_GENERATION {
      DivModUnique(g + 1, 0x100_0000, 0, g + 1);
    } else {
      DivModUnique(g + 1, 0x100_0000, 1, 0);
    }
  }

  lemma MaskedGeneration(n: nat)
    ensures And(n, MAX_GENERATION) == n % 0x100_0000
  {
    assert Pow2(24) == 0x100_0000 by { Pow2Values(); }
    AndMask(n, MAX_GENERATION, 24);
  }

  function GenerationAfter(creations: nat): nat {
    if creations == 0 then 0 else NextGeneration(GenerationAfter(creations - 1))
  }

  /** Generations count creations exactly up to 2^24 - 1; the next creation repeats
      the first generation. */
  lemma {:induction false} GenerationsAreUniqueUpTo(n: nat)
    requires n <= MAX_GENERATION
    ensures GenerationAfter(n) == n
    ensures n == MAX_GENERATION ==> GenerationAfter(n + 1) == GenerationAfter(1)
  {
    if n > 0 {
      GenerationsAreUniqueUpTo(n - 1);
      NextGenerationCounts(n - 1);
    }
    NextGenerationCounts(n);
    NextGenerationCounts(0);
    assert GenerationAfter(0) == 0 && GenerationAfter(1) == NextGeneration(GenerationAfter(0));
    assert GenerationAfter(n + 1) == NextGeneration(GenerationAfter(n));
  }

  // ----- The table, the slots and the steps

  datatype Definition = Definition(destructor: Option<Destructor>, generation: nat, inUse: bool)

  datatype Slot = Slot(value: Value, generation: nat)

  datatype Pending = SetPending(k: Key, value: Value) | GetPending(k: Key)

  /** `last` is history: what each thread last stored through each key, and
      `destructorOf` what each key was created with. */
  datatype State = State(
    keys: seq<Definition>, slots: map<Thread, seq<Slot>>, pending: map<Thread, Pending>,
    last: map<(Thread, Key), Value>, destructorOf: map<Key, Option<Destructor>>)

  function NoSlots(): seq<Slot> { seq(KEY_COUNT, _ => Slot(0, 0)) }

  function NoKeys(): seq<Definition> { seq(KEY_COUNT, _ => Definition(None, 0, false)) }

  function Init(): State { State(NoKeys(), map[], map[], map[], map[]) }

  datatype Event =
    | Start(t: Thread)                              // a thread is created
    | Create(t: Thread, destructor: Option<Destructor>)
    | Delete(t: Thread, handle: nat)
    | SetCheck(t: Thread, handle: nat, value: Value)
    | SetWrite(t: Thread)
    | GetCheck(t: Thread, handle: nat)
    | GetRead(t: Thread)
    | ExitClear(t: Thread, index: nat)              // an exiting thread nulls a slot

  predicate Live(s: State, k: Key) {
    k.index < |s.keys| && k.generation != 0 && s.keys[k.index].inUse && s.keys[k.index].generation == k.generation
  }

  /** The first slot of the table that is not in use, or its length. */
  function FirstFree(keys: seq<Definition>): (i: nat)
    ensures i <= |keys| && (i < |keys| ==> !keys[i].inUse) && forall j :: 0 <= j < i ==> keys[j].inUse
  {
    if keys == [] || !keys[0].inUse then 0 else 1 + FirstFree(keys[1..])
  }

  predicate Enabled(s: State, e: Event) {
    match e
    case Start(t) => t !in s.slots
    case Create(t, _) =>
      t in s.slots && t !in s.pending && |s.keys| == KEY_COUNT &&
      // at most 2^24 - 1 creations per slot
      (FirstFree(s.keys) < KEY_COUNT ==> s.keys[FirstFree(s.keys)].generation < MAX_GENERATION)
    case Delete(t, _) => t in s.slots && t !in s.pending
    case SetCheck(t, _, _) => t in s.slots && t !in s.pending
    case SetWrite(t) =>
      t in s.slots && t in s.pending && s.pending[t].SetPending? && s.pending[t].k.index < |s.slots[t]|
    case GetCheck(t, _) => t in s.slots && t !in s.pending
    case GetRead(t) =>
      t in s.slots && t in s.pending && s.pending[t].GetPending? && s.pending[t].k.index < |s.slots[t]|
    case ExitClear(t, i) =>
      t in s.slots && t !in s.pending && i < KEY_COUNT <= |s.slots[t]| && s.slots[t][i].generation > 0
  }

  function CreateKey(s: State, destructor: Option<Destructor>): State
    requires |s.keys| == KEY_COUNT
  {
    var i := FirstFree(s.keys);
    if i == KEY_COUNT then s
    else
      var g := NextGeneration(s.keys[i].generation);
      s.(keys := s.keys[i := Definition(destructor, g, true)], destructorOf := s.destructorOf[Key(i, g) := destructor])
  }

  function WriteSlot(s: State, t: Thread, k: Key, value: Value): State
    requires t in s.slots && k.index < |s.slots[t]|
  {
    s.(slots := s.slots[t := s.slots[t][k.index := Slot(value, k.generation)]], last := s.last[(t, k) := value])
  }

  function Apply(s: State, e: Event): State
    requires Enabled(s, e)
  {
    match e
    case Start(t) => s.(slots := s.slots[t := NoSlots()])
    case Create(t, destructor) => CreateKey(s, destructor)
    case Delete(t, handle) =>
      var k := KeyOf(handle);
      if Live(s, k) then s.(keys := s.keys[k.index := s.keys[k.index].(inUse := false, destructor := None)]) else s
    case SetCheck(t, handle, value) =>
      if Live(s, KeyOf(handle)) then s.(pending := s.pending[t := SetPending(KeyOf(handle), value)]) else s
    case SetWrite(t) => WriteSlot(s, t, s.pending[t].k, s.pending[t].value).(pending := s.pending - {t})
    case GetCheck(t, handle) =>
      if Live(s, KeyOf(handle)) then s.(pending := s.pending[t := GetPending(KeyOf(handle))]) else s
    case GetRead(t) => s.(pending := s.pending - {t})
    case ExitClear(t, i) => WriteSlot(s, t, Key(i, s.slots[t][i].generation), 0)
  }

  /** What the second half of key_get returns. */
  function Read(s: State, t: Thread): Value
    requires Enabled(s, GetRead(t))
  {
    var k := s.pending[t].k;
    if s.slots[t][k.index].generation == k.generation then s.slots[t][k.index].value else 0
  }

  /** What a thread last stored through a key, or null. */
  function LastSet(s: State, t: Thread, k: Key): Value { if (t, k) in s.last then s.last[(t, k)] else 0 }

  // ----- Invariant

  ghost predicate TableOk(s: State) {
    && |s.keys| == KEY_COUNT
    && (forall i :: 0 <= i < KEY_COUNT ==> s.keys[i].generation <= MAX_GENERATION)
    && (forall i :: 0 <= i < KEY_COUNT && s.keys[i].inUse ==>
          && s.keys[i].generation > 0 && Key(i, s.keys[i].generation) in s.destructorOf
          && s.destructorOf[Key(i, s.keys[i].generation)] == s.keys[i].destructor)
  }

  /** A slot holds what was last stored through the key of its generation. */
  ghost predicate SlotsOk(s: State) {
    forall t :: t in s.slots ==>
      && |s.slots[t]| == KEY_COUNT
      && forall i :: 0 <= i < KEY_COUNT ==> SlotOk(s, t, i)
  }

  ghost predicate SlotOk(s: State, t: Thread, i: nat)
    requires t in s.slots && i < |s.slots[t]|
  {
    var slot := s.slots[t][i];
    && i < |s.keys| && slot.generation <= s.keys[i].generation
    && (if slot.generation == 0 then slot.value == 0
        else (t, Key(i, slot.generation)) in s.last && s.last[(t, Key(i, slot.generation))] == slot.value)
  }

  /** A recorded store is the current content of its slot or older than it. */
  ghost predicate LastOk(s: State) {
    forall t, k :: (t, k) in s.last ==>
      && t in s.slots && k.index < KEY_COUNT <= |s.slots[t]| && 0 < k.generation <= s.slots[t][k.index].generation
  }

  ghost predicate PendingOk(s: State) {
    forall t :: t in s.pending ==>
      && t in s.slots && s.pending[t].k.index < KEY_COUNT <= |s.slots[t]| && KEY_COUNT <= |s.keys|
      && s.pending[t].k.generation > 0
      && s.slots[t][s.pending[t].k.index].generation <= s.pending[t].k.generation
      && s.pending[t].k.generation <= s.keys[s.pending[t].k.index].generation
  }

  ghost predicate Inv(s: State) { TableOk(s) && SlotsOk(s) && LastOk(s) && PendingOk(s) }

  lemma TableStep(s: State, s': State, i: nat)
    requires SlotsOk(s) && PendingOk(s) && LastOk(s) && |s.keys| == KEY_COUNT && i < KEY_COUNT
    requires s' == s.(keys := s'.keys, destructorOf := s'.destructorOf)
    requires |s'.keys| == KEY_COUNT && forall j :: 0 <= j < KEY_COUNT ==> s.keys[j].generation <= s'.keys[j].generation
    ensures SlotsOk(s') && PendingOk(s') && LastOk(s')
  {
    forall t, j | t in s'.slots && 0 <= j < KEY_COUNT
      ensures SlotOk(s', t, j)
    {
      assert SlotOk(s, t, j);
    }
  }

  lemma CreateKeepsInv(s: State, t: Thread, destructor: Option<Destructor>)
    requires Inv(s) && Enabled(s, Create(t, destructor))
    ensures Inv(Apply(s, Create(t, destructor)))
  {
    var i := FirstFree(s.keys);
    if i < KEY_COUNT {
      NextGenerationCounts(s.keys[i].generation);
      TableStep(s, Apply(s, Create(t, destructor)), i);
    }
  }

  lemma DeleteKeepsInv(s: State, t: Thread, handle: nat)
    requires Inv(s) && Enabled(s, Delete(t, handle))
    ensures Inv(Apply(s, Delete(t, handle)))
  {
    if Live(s, KeyOf(handle)) {
      TableStep(s, Apply(s, Delete(t, handle)), KeyOf(handle).index);
    }
  }

  lemma StartKeepsInv(s: State, t: Thread)
    requires Inv(s) && Enabled(s, Start(t))
    ensures Inv(Apply(s, Start(t)))
  {
    var s' := Apply(s, Start(t));
    forall u, i | u in s'.slots && 0 <= i < KEY_COUNT
      ensures SlotOk(s', u, i)
    {
      assert u != t ==> SlotOk(s, u, i);
    }
  }

  lemma CheckKeepsInv(s: State, e: Event)
    requires Inv(s) && Enabled(s, e) && (e.SetCheck? || e.GetCheck? || e.GetRead?)
    ensures Inv(Apply(s, e))
  {
    var s' := Apply(s, e);
    forall u, i | u in s'.slots && 0 <= i < KEY_COUNT
      ensures SlotOk(s', u, i)
    {
      assert SlotOk(s, u, i);
    }
    if e.SetCheck? || e.GetCheck? {
      var k := KeyOf(e.handle);
      assert Live(s, k) ==> SlotOk(s, e.t, k.index);
    }
  }

  /** Storing through a key that is at least as new as the slot keeps everything. */
  lemma WriteKeepsInv(s: State, t: Thread, k: Key, value: Value)
    requires TableOk(s) && SlotsOk(s) && LastOk(s) && t in s.slots && k.index < KEY_COUNT && k.generation > 0
    requires s.slots[t][k.index].generation <= k.generation <= s.keys[k.index].generation
    ensures var s' := WriteSlot(s, t, k, value); TableOk(s') && SlotsOk(s') && LastOk(s')
  {
    var s' := WriteSlot(s, t, k, value);
    forall u, i | u in s'.slots && 0 <= i < KEY_COUNT
      ensures SlotOk(s', u, i)
    {
      assert SlotOk(s, u, i);
    }
  }

  lemma SetWriteKeepsInv(s: State, t: Thread)
    requires Inv(s) && Enabled(s, SetWrite(t))
    ensures Inv(Apply(s, SetWrite(t)))
  {
    var s' := Apply(s, SetWrite(t));
    var w := WriteSlot(s, t, s.pending[t].k, s.pending[t].value);
    WriteKeepsInv(s, t, s.pending[t].k, s.pending[t].value);
    PendingDoesNotMatter(w, s');
  }

  lemma PendingDoesNotMatter(s: State, s': State)
    requires s' == s.(pending := s'.pending)
    ensures TableOk(s) == TableOk(s') && SlotsOk(s) == SlotsOk(s') && LastOk(s) == LastOk(s')
  {
    forall t, i: nat | t in s.slots && i < |s.slots[t]|
      ensures SlotOk(s, t, i) == SlotOk(s', t, i)
    {
    }
  }

  lemma ExitClearKeepsInv(s: State, t: Thread, i: nat)
    requires Inv(s) && Enabled(s, ExitClear(t, i))
    ensures Inv(Apply(s, ExitClear(t, i)))
  {
    assert SlotOk(s, t, i);
    WriteKeepsInv(s, t, Key(i, s.slots[t][i].generation), 0);
  }

  lemma StepKeepsInv(s: State, e: Event)
    requires Inv(s) && Enabled(s, e)
    ensures Inv(Apply(s, e))
  {
    match e
    case Start(t) => StartKeepsInv(s, t);
    case Create(t, destructor) => CreateKeepsInv(s, t, destructor);
    case Delete(t, handle) => DeleteKeepsInv(s, t, handle);
    case SetWrite(t) => SetWriteKeepsInv(s, t);
    case ExitClear(t, i) => ExitClearKeepsInv(s, t, i);
    case _ => CheckKeepsInv(s, e);
  }

  // ----- What every run promises

  ghost predicate Step(s: State, s': State) {
    exists e :: Enabled(s, e) && s' == Apply(s, e)
  }

  ghost predicate IsRun(run: seq<State>) {
    && run != [] && run[0] == Init()
    && forall i: nat {:trigger StepAt(run, i)} :: i < |run| - 1 ==> StepAt(run, i)
  }

  ghost predicate StepAt(run: seq<State>, i: nat) { i < |run| - 1 && Step(run[i], run[i + 1]) }

  lemma {:induction false} RunInv(run: seq<State>, i: nat)
    requires IsRun(run) && i < |run|
    ensures Inv(run[i])
  {
    if i > 0 {
      RunInv(run, i - 1);
      assert StepAt(run, i - 1);
      var e :| Enabled(run[i - 1], e) && run[i] == Apply(run[i - 1], e);
      StepKeepsInv(run[i - 1], e);
    }
  }

  /** key_get returns what this thread last stored through this very key, and null
      if it never did, even when the key is deleted and its slot reused between
      the two halves of the call. */
  lemma GetReturnsLastSet(run: seq<State>, i: nat, t: Thread)
    requires IsRun(run) && i < |run| && Enabled(run[i], GetRead(t))
    ensures Read(run[i], t) == LastSet(run[i], t, run[i].pending[t].k)
  {
    RunInv(run, i);
    assert SlotOk(run[i], t, run[i].pending[t].k.index);
  }

  /** A key that was just created reads null in every thread. */
  lemma FreshKeyReadsNull(run: seq<State>, i: nat, t: Thread, destructor: Option<Destructor>, u: Thread)
    requires IsRun(run) && i < |run| && Enabled(run[i], Create(t, destructor)) && FirstFree(run[i].keys) < KEY_COUNT
    ensures var s := Apply(run[i], Create(t, destructor));
      var index := FirstFree(run[i].keys);
      var k := Key(index, s.keys[index].generation);
      && Live(s, k) && KeyOf(MakeKey(k)) == k
      && k.generation == run[i].keys[index].generation + 1
      && LastSet(s, u, k) == 0 && (u, k) !in s.last
  {
    RunInv(run, i);
    var index := FirstFree(run[i].keys);
    NextGenerationCounts(run[i].keys[index].generation);
    var k := Key(index, run[i].keys[index].generation + 1);
    HandleRoundTrip(k);
    assert u in run[i].slots ==> SlotOk(run[i], u, index);
  }

  /** k was created at some time. */
  predicate Created(s: State, k: Key) { k.index < |s.keys| && 0 < k.generation <= s.keys[k.index].generation }

  lemma StepKeepsDead(s: State, e: Event, k: Key)
    requires TableOk(s) && Enabled(s, e) && Created(s, k) && !Live(s, k)
    ensures Created(Apply(s, e), k) && !Live(Apply(s, e), k)
  {
    if e.Create? && FirstFree(s.keys) < KEY_COUNT {
      NextGenerationCounts(s.keys[FirstFree(s.keys)].generation);
    }
  }

  lemma AnyStepKeepsDead(s: State, s': State, k: Key)
    requires TableOk(s) && Step(s, s')
    ensures KeepsDead(s, s', k)
  {
    var e :| Enabled(s, e) && s' == Apply(s, e);
    if Created(s, k) && !Live(s, k) {
      StepKeepsDead(s, e, k);
    }
  }

  predicate KeepsDead(s: State, s': State, k: Key) {
    Created(s, k) && !Live(s, k) ==> Created(s', k) && !Live(s', k)
  }

  lemma {:induction false} DeadChain(run: seq<State>, i: nat, j: nat, k: Key)
    requires i <= j < |run| && Created(run[i], k) && !Live(run[i], k)
    requires forall m :: i <= m < j ==> KeepsDead(run[m], run[m + 1], k)
    ensures Created(run[j], k) && !Live(run[j], k)
    decreases j
  {
    if i < j {
      DeadChain(run, i, j - 1, k);
      assert KeepsDead(run[j - 1], run[j - 1 + 1], k);
    }
  }

  lemma TableAt(run: seq<State>, i: nat)
    requires IsRun(run) && i < |run|
    ensures TableOk(run[i])
  {
    RunInv(run, i);
  }

  /** A deleted handle stays refused, however often its slot is reused. */
  lemma DeletedStaysRefused(run: seq<State>, i: nat, j: nat, k: Key)
    requires IsRun(run) && i <= j < |run| && Created(run[i], k) && !Live(run[i], k)
    ensures Created(run[j], k) && !Live(run[j], k)
  {
    forall m | i <= m < j
      ensures KeepsDead(run[m], run[m + 1], k)
    {
      TableAt(run, m);
      assert StepAt(run, m);
      AnyStepKeepsDead(run[m], run[m + 1], k);
    }
    DeadChain(run, i, j, k);
  }

  // ----- The search of key_create

  method FindFree(keys: seq<Definition>) returns (index: nat)
    ensures index == FirstFree(keys)
  {
    index := 0;
    while index < |keys|
      invariant index <= |keys| && index + FirstFree(keys[index..]) == FirstFree(keys)
    {
      if !keys[index].inUse {
        return;
      }
      assert keys[index..][1..] == keys[index + 1..];
      index := index + 1;
    }
  }

  // ----- Destructors at thread exit

  /** Slot i of thread t still holds a value that its key's destructor is owed. */
  predicate Undestroyed(s: State, t: Thread, i: nat) {
    && t in s.slots && i < |s.slots[t]| && i < |s.keys|
    && s.keys[i].inUse && s.keys[i].destructor.Some? && s.slots[t][i].value != 0
    && s.slots[t][i].generation == s.keys[i].generation
  }

  /** A destructor is owed for exactly the live keys that were created with one and
      through which the thread has last stored something. */
  lemma DestructorIsOwedIff(s: State, t: Thread, k: Key)
    requires Inv(s) && t in s.slots && Live(s, k)
    ensures Undestroyed(s, t, k.index) <==>
      k in s.destructorOf && s.destructorOf[k].Some? && LastSet(s, t, k) != 0
  {
    assert SlotOk(s, t, k.index);
    assert Key(k.index, s.keys[k.index].generation) == k;
  }

  /** Steps of other threads: every enabled one of the given events is taken. */
  function Others(s: State, t: Thread, events: seq<Event>): State
    decreases |events|
  {
    if events == [] then s
    else if events[0].t != t && Enabled(s, events[0]) then Others(Apply(s, events[0]), t, events[1..])
    else Others(s, t, events[1..])
  }

  lemma OtherStepIsQuiet(s: State, e: Event, t: Thread, i: nat)
    requires Inv(s) && Enabled(s, e) && e.t != t && t in s.slots && i < KEY_COUNT
    ensures Inv(Apply(s, e)) && t in Apply(s, e).slots && Apply(s, e).slots[t] == s.slots[t]
    ensures t in Apply(s, e).pending <==> t in s.pending
    ensures !Undestroyed(s, t, i) ==> !Undestroyed(Apply(s, e), t, i)
  {
    StepKeepsInv(s, e);
    assert SlotOk(s, t, i);
    if e.Create? && FirstFree(s.keys) < KEY_COUNT {
      NextGenerationCounts(s.keys[FirstFree(s.keys)].generation);
    }
  }

  /** Whatever other threads do, they neither change this thread's slots nor make
      a settled slot owe a destructor. */
  lemma {:induction false} OthersAreQuiet(s: State, t: Thread, events: seq<Event>, i: nat)
    requires Inv(s) && t in s.slots && i < KEY_COUNT
    ensures var s' := Others(s, t, events);
      && Inv(s') && t in s'.slots && s'.slots[t] == s.slots[t] && (t in s'.pending <==> t in s.pending)
      && (!Undestroyed(s, t, i) ==> !Undestroyed(s', t, i))
    decreases |events|
  {
    if events != [] {
      if events[0].t != t && Enabled(s, events[0]) {
        OtherStepIsQuiet(s, events[0], t, i);
        OthersAreQuiet(Apply(s, events[0]), t, events[1..], i);
      } else {
        OthersAreQuiet(s, t, events[1..], i);
      }
    }
  }

  lemma OthersKeepSettled(s: State, t: Thread, events: seq<Event>)
    requires Inv(s) && t in s.slots
    ensures var s' := Others(s, t, events);
      && Inv(s') && t in s'.slots && s'.slots[t] == s.slots[t] && (t in s'.pending <==> t in s.pending)
      && (forall i: nat :: i < KEY_COUNT && !Undestroyed(s, t, i) ==> !Undestroyed(s', t, i))
  {
    OthersAreQuiet(s, t, events, 0);
    forall i: nat | i < KEY_COUNT && !Undestroyed(s, t, i)
      ensures !Undestroyed(Others(s, t, events), t, i)
    {
      OthersAreQuiet(s, t, events, i);
    }
  }

  /** Any steps of any threads: every enabled one of the events is taken. */
  function Play(s: State, events: seq<Event>): State
    decreases |events|
  {
    if events == [] then s
    else if Enabled(s, events[0]) then Play(Apply(s, events[0]), events[1..])
    else Play(s, events[1..])
  }

  lemma {:induction false} PlayKeepsInv(s: State, events: seq<Event>)
    requires Inv(s)
    ensures Inv(Play(s, events)) && s.slots.Keys <= Play(s, events).slots.Keys
    decreases |events|
  {
    if events != [] {
      if Enabled(s, events[0]) {
        StepKeepsInv(s, events[0]);
        PlayKeepsInv(Apply(s, events[0]), events[1..]);
      } else {
        PlayKeepsInv(s, events[1..]);
      }
    }
  }

  lemma {:induction false} PlayTwice(s: State, a: seq<Event>, b: seq<Event>)
    ensures Play(s, a + b) == Play(Play(s, a), b)
    decreases |a|
  {
    if a == [] {
      assert a + b == b;
    } else {
      assert (a + b)[1..] == a[1..] + b;
      PlayTwice(if Enabled(s, a[0]) then Apply(s, a[0]) else s, a[1..], b);
    }
  }

  ghost predicate Reaches(s: State, s': State) { exists events :: s' == Play(s, events) }

  lemma ReachesTwice(s: State, u: State, v: State)
    requires Reaches(s, u) && Reaches(u, v)
    ensures Reaches(s, v)
  {
    var a :| u == Play(s, a);
    var b :| v == Play(u, b);
    PlayTwice(s, a, b);
  }

  lemma StepContinuesRun(run: seq<State>, e: Event)
    requires IsRun(run) && Enabled(run[|run| - 1], e)
    ensures IsRun(run + [Apply(run[|run| - 1], e)])
  {
    var next := run + [Apply(run[|run| - 1], e)];
    assert Step(run[|run| - 1], next[|run|]);
    forall i: nat | i < |next| - 1
      ensures StepAt(next, i)
    {
      assert i < |run| - 1 ==> StepAt(run, i);
    }
  }

  /** What is played from the end of a run continues the run, so the theorems about
      runs cover thread exits. */
  lemma {:induction false} PlayContinuesRun(run: seq<State>, events: seq<Event>) returns (longer: seq<State>)
    requires IsRun(run)
    ensures IsRun(longer) && run <= longer && longer[|longer| - 1] == Play(run[|run| - 1], events)
    decreases |events|
  {
    if events == [] {
      longer := run;
    } else if Enabled(run[|run| - 1], events[0]) {
      StepContinuesRun(run, events[0]);
      longer := PlayContinuesRun(run + [Apply(run[|run| - 1], events[0])], events[1..]);
    } else {
      longer := PlayContinuesRun(run, events[1..]);
    }
  }

  /** The events that other threads contribute. */
  function NotBy(t: Thread, events: seq<Event>): seq<Event>
    decreases |events|
  {
    if events == [] then [] else (if events[0].t != t then [events[0]] else []) + NotBy(t, events[1..])
  }

  lemma {:induction false} OthersPlay(s: State, t: Thread, events: seq<Event>)
    ensures Others(s, t, events) == Play(s, NotBy(t, events))
    decreases |events|
  {
    if events != [] {
      var rest := NotBy(t, events[1..]);
      assert ([events[0]] + rest)[1..] == rest && [] + rest == rest;
      if events[0].t != t && Enabled(s, events[0]) {
        OthersPlay(Apply(s, events[0]), t, events[1..]);
      } else {
        OthersPlay(s, t, events[1..]);
      }
    }
  }

  // ----- The exit of a thread

  /** One destructor invocation, with the key it is made for. */
  datatype Invocation = Invocation(k: Key, destructor: Destructor, value: Value)

  /** The invocation passes a non-null value that the exiting thread last stored
      through this key to the destructor this key was created with. */
  predicate Proper(s: State, t: Thread, v: Invocation) {
    && v.value != 0 && LastSet(s, t, v.k) == v.value
    && v.k in s.destructorOf && s.destructorOf[v.k] == Some(v.destructor)
  }

  /** What happens around one index: steps of others before the look at the table
      and between the look and the slot, and the steps during the destructor. */
  datatype Turn = Turn(before: seq<Event>, between: seq<Event>, behaviour: seq<Event>)

  /** The state in which the table is looked at, and the one in which the slot is. */
  function Look(s: State, t: Thread, turn: Turn): State { Others(s, t, turn.before) }

  function AtSlot(s: State, t: Thread, turn: Turn): State { Others(Look(s, t, turn), t, turn.between) }

  function InvocationAt(s: State, t: Thread, i: nat): Invocation
    requires Undestroyed(s, t, i)
  {
    Invocation(Key(i, s.keys[i].generation), s.keys[i].destructor.value, s.slots[t][i].value)
  }

  /** The slot is nulled, the destructor runs, and its last call is completed. */
  function DestructorRun(t: Thread, i: nat, behaviour: seq<Event>): seq<Event> {
    [ExitClear(t, i)] + behaviour + [SetWrite(t), GetRead(t)]
  }

  function AfterVisit(s: State, t: Thread, i: nat, turn: Turn): State {
    if Undestroyed(Look(s, t, turn), t, i) then Play(AtSlot(s, t, turn), DestructorRun(t, i, turn.behaviour))
    else AtSlot(s, t, turn)
  }

  /** Invocations with the states in which the table was looked at. */
  type Calls = seq<(State, Invocation)>

  function VisitCalls(s: State, t: Thread, i: nat, turn: Turn): Calls {
    var look := Look(s, t, turn);
    if Undestroyed(look, t, i) then [(look, InvocationAt(look, t, i))] else []
  }

  /** A pass from index i on. */
  function Pass(s: State, t: Thread, i: nat, clock: nat, turns: nat -> Turn): (State, Calls)
    decreases KEY_COUNT - i, clock
  {
    if i >= KEY_COUNT then (s, [])
    else
      var turn := turns(clock + i);
      var (s', calls) := Pass(AfterVisit(s, t, i, turn), t, i + 1, clock, turns);
      (s', VisitCalls(s, t, i, turn) + calls)
  }

  datatype Exit = Exit(state: State, calls: Calls, early: bool, passes: nat)

  const PASSES := 4

  /** run_thread_specific_destructors from pass n on: it ends early after a pass
      without a call. */
  function Passes(s: State, t: Thread, n: nat, turns: nat -> Turn): Exit
    decreases PASSES - n, t
  {
    if n >= PASSES then Exit(s, [], false, n)
    else
      var (s', calls) := Pass(s, t, 0, n * KEY_COUNT, turns);
      if calls == [] then Exit(s', [], true, n + 1)
      else
        var rest := Passes(s', t, n + 1, turns);
        rest.(calls := calls + rest.calls)
  }

  /** The exiting thread is between calls. */
  ghost predicate AtRest(s: State, t: Thread) { Inv(s) && t in s.slots && t !in s.pending }

  lemma LookIsProper(s: State, t: Thread, i: nat)
    requires Inv(s) && i < KEY_COUNT && Undestroyed(s, t, i)
    ensures s.slots[t][i].generation > 0 && Proper(s, t, InvocationAt(s, t, i))
  {
    assert SlotOk(s, t, i);
  }

  lemma AtSlotIsQuiet(s: State, t: Thread, turn: Turn)
    requires AtRest(s, t)
    ensures AtRest(Look(s, t, turn), t) && AtRest(AtSlot(s, t, turn), t)
    ensures Look(s, t, turn).slots[t] == AtSlot(s, t, turn).slots[t] == s.slots[t]
    ensures forall j: nat :: j < KEY_COUNT && !Undestroyed(s, t, j) ==> !Undestroyed(Look(s, t, turn), t, j)
    ensures forall j: nat :: j < KEY_COUNT && !Undestroyed(Look(s, t, turn), t, j) ==>
      !Undestroyed(AtSlot(s, t, turn), t, j)
  {
    OthersKeepSettled(s, t, turn.before);
    OthersKeepSettled(Look(s, t, turn), t, turn.between);
  }

  lemma LastCallCompletes(s: State, t: Thread)
    requires Inv(s)
    ensures t !in Play(s, [SetWrite(t), GetRead(t)]).pending
  {
    var events := [SetWrite(t), GetRead(t)];
    assert events[1..] == [GetRead(t)] && events[1..][1..] == [];
    var u := if Enabled(s, SetWrite(t)) then Apply(s, SetWrite(t)) else s;
    assert Play(u, events[1..]) == if Enabled(u, GetRead(t)) then Apply(u, GetRead(t)) else u;
  }

  lemma DestructorRuns(s: State, t: Thread, i: nat, behaviour: seq<Event>)
    requires AtRest(s, t)
    ensures AtRest(Play(s, DestructorRun(t, i, behaviour)), t)
  {
    var most := [ExitClear(t, i)] + behaviour;
    PlayKeepsInv(s, most);
    PlayTwice(s, most, [SetWrite(t), GetRead(t)]);
    LastCallCompletes(Play(s, most), t);
    PlayKeepsInv(Play(s, most), [SetWrite(t), GetRead(t)]);
  }

  /** Before the destructor runs, its slot has become null. */
  lemma DestructorSeesNull(s: State, t: Thread, i: nat, turn: Turn)
    requires AtRest(s, t) && i < KEY_COUNT && Undestroyed(Look(s, t, turn), t, i)
    ensures var u := AtSlot(s, t, turn);
      && Enabled(u, ExitClear(t, i))
      && AfterVisit(s, t, i, turn) == Play(Apply(u, ExitClear(t, i)), turn.behaviour + [SetWrite(t), GetRead(t)])
      && Apply(u, ExitClear(t, i)).slots[t][i].value == 0
      && LastSet(Apply(u, ExitClear(t, i)), t, InvocationAt(Look(s, t, turn), t, i).k) == 0
  {
    AtSlotIsQuiet(s, t, turn);
    LookIsProper(Look(s, t, turn), t, i);
    var run := DestructorRun(t, i, turn.behaviour);
    assert run[0] == ExitClear(t, i) && run[1..] == turn.behaviour + [SetWrite(t), GetRead(t)];
    assert SlotOk(AtSlot(s, t, turn), t, i);
  }

  /** Every call is proper, in a state reached from s. */
  ghost predicate AllProper(s: State, t: Thread, calls: Calls) {
    forall c :: c in calls ==> Proper(c.0, t, c.1) && Reaches(s, c.0)
  }

  lemma AllProperFrom(s: State, u: State, t: Thread, calls: Calls)
    requires Reaches(s, u) && AllProper(u, t, calls)
    ensures AllProper(s, t, calls)
  {
    forall c | c in calls
      ensures Reaches(s, c.0)
    {
      ReachesTwice(s, u, c.0);
    }
  }

  /** The first n slots owe no destructor. */
  ghost predicate Destroyed(s: State, t: Thread, n: nat) {
    forall j: nat :: j < n && j < KEY_COUNT ==> !Undestroyed(s, t, j)
  }

  lemma VisitIsProper(s: State, t: Thread, i: nat, turn: Turn)
    requires AtRest(s, t) && i < KEY_COUNT
    ensures AtRest(AfterVisit(s, t, i, turn), t) && Reaches(s, AfterVisit(s, t, i, turn))
    ensures AllProper(s, t, VisitCalls(s, t, i, turn))
    ensures VisitCalls(s, t, i, turn) == [] && Destroyed(s, t, i) ==> Destroyed(AfterVisit(s, t, i, turn), t, i + 1)
  {
    var look, u := Look(s, t, turn), AtSlot(s, t, turn);
    AtSlotIsQuiet(s, t, turn);
    OthersPlay(s, t, turn.before);
    OthersPlay(look, t, turn.between);
    ReachesTwice(s, look, u);
    if Undestroyed(look, t, i) {
      LookIsProper(look, t, i);
      DestructorRuns(u, t, i, turn.behaviour);
      ReachesTwice(s, u, AfterVisit(s, t, i, turn));
    }
  }

  lemma ReachesItself(s: State)
    ensures Reaches(s, s)
  {
    assert s == Play(s, []);
  }

  /** A pass calls destructors properly, and one that calls none leaves nothing to
      destroy. */
  lemma {:induction false} PassIsProper(s: State, t: Thread, i: nat, clock: nat, turns: nat -> Turn)
    requires AtRest(s, t)
    ensures AtRest(Pass(s, t, i, clock, turns).0, t) && Reaches(s, Pass(s, t, i, clock, turns).0)
    ensures AllProper(s, t, Pass(s, t, i, clock, turns).1)
    ensures Pass(s, t, i, clock, turns).1 == [] && Destroyed(s, t, i) ==>
      Destroyed(Pass(s, t, i, clock, turns).0, t, KEY_COUNT)
    decreases KEY_COUNT - i
  {
    if i >= KEY_COUNT {
      ReachesItself(s);
    } else {
      var turn := turns(clock + i);
      var u := AfterVisit(s, t, i, turn);
      VisitIsProper(s, t, i, turn);
      PassIsProper(u, t, i + 1, clock, turns);
      var rest := Pass(u, t, i + 1, clock, turns);
      PassUnfolds(s, t, i, clock, turns);
      ReachesTwice(s, u, rest.0);
      AllProperFrom(s, u, t, rest.1);
    }
  }

  lemma PassUnfolds(s: State, t: Thread, i: nat, clock: nat, turns: nat -> Turn)
    requires i < KEY_COUNT
    ensures var rest := Pass(AfterVisit(s, t, i, turns(clock + i)), t, i + 1, clock, turns);
      Pass(s, t, i, clock, turns) == (rest.0, VisitCalls(s, t, i, turns(clock + i)) + rest.1)
  {
  }

  /** Whatever other threads and destructors do, every destructor is called with
      what the exiting thread last stored through the very key it belongs to, in a
      state that the exit has reached; and if the exit finishes early, no value that
      a destructor is owed is left. */
  lemma {:induction false} ExitIsProper(s: State, t: Thread, n: nat, turns: nat -> Turn)
    requires AtRest(s, t) && n <= PASSES
    ensures var x := Passes(s, t, n, turns);
      && AtRest(x.state, t) && Reaches(s, x.state) && n <= x.passes <= PASSES && (!x.early ==> x.passes == PASSES)
      && AllProper(s, t, x.calls) && (x.early ==> Destroyed(x.state, t, KEY_COUNT))
    decreases PASSES - n
  {
    if n >= PASSES {
      ReachesItself(s);
    } else {
      var pass := Pass(s, t, 0, n * KEY_COUNT, turns);
      PassIsProper(s, t, 0, n * KEY_COUNT, turns);
      if pass.1 != [] {
        ExitIsProper(pass.0, t, n + 1, turns);
        var rest := Passes(pass.0, t, n + 1, turns);
        ReachesTwice(s, pass.0, rest.state);
        AllProperFrom(s, pass.0, t, rest.calls);
      }
    }
  }

  // ----- The loops of run_thread_specific_destructors

  /** One index: the table is read under the mutex, the slot afterwards. */
  method VisitIndex(s: State, t: Thread, i: nat, turn: Turn)
    returns (s': State, invoked: Option<Invocation>, ghost calls: Calls)
    requires AtRest(s, t) && i < KEY_COUNT
    ensures s' == AfterVisit(s, t, i, turn) && AtRest(s', t) && calls == VisitCalls(s, t, i, turn)
    ensures calls == if invoked.Some? then [(Look(s, t, turn), invoked.value)] else []
  {
    VisitIsProper(s, t, i, turn);
    calls := VisitCalls(s, t, i, turn);
    AtSlotIsQuiet(s, t, turn);
    var look := Look(s, t, turn);
    var destructor := if look.keys[i].inUse then look.keys[i].destructor else None;
    var generation := look.keys[i].generation;
    s' := AtSlot(s, t, turn);
    invoked := None;
    var slot := s'.slots[t][i];
    if destructor.Some? && slot.value != 0 && slot.generation == generation {
      invoked := Some(Invocation(Key(i, generation), destructor.value, slot.value));
      s' := Play(s', DestructorRun(t, i, turn.behaviour));
    }
  }

  /** AtRest, folded. */
  ghost predicate Resting(s: State, t: Thread) {
    forall u: State {:trigger Unfolded(u)} :: Unfolded(u) && u == s ==> AtRest(u, t)
  }

  /** The whole pass is the calls so far and the rest of the pass, folded. */
  ghost predicate PassSplits(whole: (State, Calls), t: Thread, clock: nat, turns: nat -> Turn, s: State, i: nat,
                             calls: Calls) {
    forall u: State {:trigger Unfolded(u)} :: Unfolded(u) && u == s ==>
      whole == (Pass(u, t, i, clock, turns).0, calls + Pass(u, t, i, clock, turns).1)
  }

  lemma PassStarts(t: Thread, clock: nat, turns: nat -> Turn, s: State, i: nat)
    ensures PassSplits(Pass(s, t, i, clock, turns), t, clock, turns, s, i, [])
  {
    var whole := Pass(s, t, i, clock, turns);
    assert [] + whole.1 == whole.1;
  }

  lemma SplitMoves(whole: (State, Calls), t: Thread, clock: nat, turns: nat -> Turn, s: State, i: nat, calls: Calls)
    requires i < KEY_COUNT && PassSplits(whole, t, clock, turns, s, i, calls)
    ensures var turn := turns(clock + i);
      PassSplits(whole, t, clock, turns, AfterVisit(s, t, i, turn), i + 1, calls + VisitCalls(s, t, i, turn))
  {
    assert Unfolded(s);
    var turn := turns(clock + i);
    var here, next := VisitCalls(s, t, i, turn), AfterVisit(s, t, i, turn);
    var rest := Pass(next, t, i + 1, clock, turns);
    PassUnfolds(s, t, i, clock, turns);
    JoinedThrice(calls, here, rest.1);
    assert whole == (rest.0, (calls + here) + rest.1);
  }

  lemma JoinedThrice(a: Calls, b: Calls, c: Calls)
    ensures a + (b + c) == (a + b) + c
  {
  }

  lemma PassEnds(whole: (State, Calls), t: Thread, clock: nat, turns: nat -> Turn, s: State, i: nat, calls: Calls)
    requires i == KEY_COUNT && PassSplits(whole, t, clock, turns, s, i, calls)
    ensures whole == (s, calls)
  {
    assert Unfolded(s);
    assert calls + [] == calls;
  }

  /** The next index of a pass. */
  method VisitNext(ghost whole: (State, Calls), s: State, t: Thread, i: nat, clock: nat, turns: nat -> Turn,
                   ghost calls: Calls)
    returns (s': State, invoked: bool, ghost here: Calls)
    requires Resting(s, t) && i < KEY_COUNT && PassSplits(whole, t, clock, turns, s, i, calls)
    ensures Resting(s', t) && PassSplits(whole, t, clock, turns, s', i + 1, calls + here)
    ensures invoked <==> here != []
  {
    assert Unfolded(s);
    SplitMoves(whole, t, clock, turns, s, i, calls);
    var invocation;
    s', invocation, here := VisitIndex(s, t, i, turns(clock + i));
    invoked := invocation.Some?;
  }

  /** One pass over the table computes Pass. */
  method RunPass(s: State, t: Thread, clock: nat, turns: nat -> Turn)
    returns (s': State, invokedAny: bool, ghost calls: Calls)
    requires Resting(s, t)
    ensures s' == Pass(s, t, 0, clock, turns).0 && (invokedAny <==> Pass(s, t, 0, clock, turns).1 != [])
    ensures calls == Pass(s, t, 0, clock, turns).1
  {
    s', invokedAny, calls := s, false, [];
    var index := 0;
    ghost var whole := Pass(s, t, index, clock, turns);
    PassStarts(t, clock, turns, s, index);
    while index < KEY_COUNT
      invariant index <= KEY_COUNT && Resting(s', t) && (invokedAny <==> calls != [])
      invariant PassSplits(whole, t, clock, turns, s', index, calls)
    {
      var invoked;
      ghost var here;
      s', invoked, here := VisitNext(whole, s', t, index, clock, turns, calls);
      calls := calls + here;
      if invoked {
        invokedAny := true;
      }
      index := index + 1;
    }
    PassEnds(whole, t, clock, turns, s', index, calls);
  }

  /** The whole exit is the calls so far and the passes still to come, folded. */
  ghost predicate PassesSplit(whole: Exit, t: Thread, turns: nat -> Turn, s: State, n: nat, calls: Calls) {
    forall u: State {:trigger Unfolded(u)} :: Unfolded(u) && u == s ==>
      whole == Passes(u, t, n, turns).(calls := calls + Passes(u, t, n, turns).calls)
  }

  lemma PassesStart(t: Thread, turns: nat -> Turn, s: State, n: nat)
    ensures PassesSplit(Passes(s, t, n, turns), t, turns, s, n, [])
  {
    var whole := Passes(s, t, n, turns);
    assert [] + whole.calls == whole.calls;
  }

  lemma PassesUnfold(u: State, t: Thread, n: nat, turns: nat -> Turn)
    requires n < PASSES
    ensures var pass := Pass(u, t, 0, n * KEY_COUNT, turns);
      Passes(u, t, n, turns) ==
        if pass.1 == [] then Exit(pass.0, [], true, n + 1)
        else Passes(pass.0, t, n + 1, turns).(calls := pass.1 + Passes(pass.0, t, n + 1, turns).calls)
  {
  }

  lemma PassesMove(whole: Exit, t: Thread, turns: nat -> Turn, s: State, n: nat, calls: Calls)
    requires n < PASSES && PassesSplit(whole, t, turns, s, n, calls)
    ensures var pass := Pass(s, t, 0, n * KEY_COUNT, turns);
      if pass.1 == [] then whole == Exit(pass.0, calls + pass.1, true, n + 1)
      else PassesSplit(whole, t, turns, pass.0, n + 1, calls + pass.1)
  {
    assert Unfolded(s);
    PassesUnfold(s, t, n, turns);
    var pass := Pass(s, t, 0, n * KEY_COUNT, turns);
    if pass.1 != [] {
      var rest := Passes(pass.0, t, n + 1, turns).calls;
      assert calls + (pass.1 + rest) == calls + pass.1 + rest;
    }
  }

  lemma PassesEnd(whole: Exit, t: Thread, turns: nat -> Turn, s: State, n: nat, calls: Calls)
    requires n == PASSES && PassesSplit(whole, t, turns, s, n, calls)
    ensures whole == Exit(s, calls, false, n)
  {
    assert Unfolded(s);
    assert calls + [] == calls;
  }

  lemma PassRests(s: State, t: Thread, clock: nat, turns: nat -> Turn)
    requires Resting(s, t)
    ensures Resting(Pass(s, t, 0, clock, turns).0, t)
  {
    assert Unfolded(s);
    PassIsProper(s, t, 0, clock, turns);
  }

  /** The next pass. */
  method NextPass(ghost whole: Exit, s: State, t: Thread, n: nat, turns: nat -> Turn, ghost calls: Calls)
    returns (s': State, invokedAny: bool, ghost more: Calls)
    requires Resting(s, t) && n < PASSES && PassesSplit(whole, t, turns, s, n, calls)
    ensures Resting(s', t)
    ensures if invokedAny then PassesSplit(whole, t, turns, s', n + 1, calls + more)
            else whole == Exit(s', calls + more, true, n + 1)
  {
    PassRests(s, t, n * KEY_COUNT, turns);
    PassesMove(whole, t, turns, s, n, calls);
    s', invokedAny, more := RunPass(s, t, n * KEY_COUNT, turns);
  }

  /** The loop of run_thread_specific_destructors computes Passes. */
  method RunPasses(s: State, t: Thread, turns: nat -> Turn)
    returns (s': State, finishedEarly: bool, passes: nat, ghost calls: Calls)
    requires Resting(s, t)
    ensures var x := Passes(s, t, 0, turns); s' == x.state && finishedEarly == x.early && passes == x.passes
    ensures calls == Passes(s, t, 0, turns).calls
  {
    s', finishedEarly, passes, calls := s, false, 0, [];
    ghost var whole := Passes(s, t, passes, turns);
    PassesStart(t, turns, s, passes);
    while passes < PASSES
      invariant passes <= PASSES && Resting(s', t)
      invariant PassesSplit(whole, t, turns, s', passes, calls)
    {
      var invokedAny;
      ghost var more;
      s', invokedAny, more := NextPass(whole, s', t, passes, turns, calls);
      calls := calls + more;
      passes := passes + 1;
      if !invokedAny {
        return s', true, passes, calls;
      }
    }
    PassesEnd(whole, t, turns, s', passes, calls);
  }

  /** run_thread_specific_destructors, with what ExitIsProper says about it. */
  method RunDestructors(s: State, t: Thread, turns: nat -> Turn)
    returns (s': State, finishedEarly: bool, passes: nat, ghost calls: Calls)
    requires AtRest(s, t)
    ensures var x := Passes(s, t, 0, turns); s' == x.state && finishedEarly == x.early && passes == x.passes
    ensures calls == Passes(s, t, 0, turns).calls
    ensures AllProper(s, t, calls) && (finishedEarly ==> Destroyed(s', t, KEY_COUNT))
    ensures AtRest(s', t) && passes <= PASSES && (!finishedEarly ==> passes == PASSES)
  {
    ExitIsProper(s, t, 0, turns);
    s', finishedEarly, passes, calls := RunPasses(s, t, turns);
  }
}
