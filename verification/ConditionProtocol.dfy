/**
 The condition variable of the runtime as a step system.

 Every step is one ThreadX call of condition_wait_common, condition_signal or
 condition_broadcast together with the local code up to the next call, so a
 timeout can fall anywhere between a notifier's unlink and its semaphore post.
 A run is a sequence of steps from the initial state; the theorems at the end
 speak about every run.
 */
module ConditionProtocol {
  import opened Fifo
  import opened Wrappers

  type Thread = nat
  type WaitId = nat
  type NotifierId = nat

  const EPERM := 1
  const EAGAIN := 11

  /** A waiter's private semaphore over its lifetime. */
  datatype Semaphore = Absent | Live(count: nat) | Deleted

  /** Where one call of condition_wait_common stands. */
  datatype WaitPc =
    | Entered                          // about to create the semaphore
    | Ready                            // about to lock the condition
    | Registered                       // holds the condition, linked
    | Unlocked(unlockStatus: int)      // holds the condition, user mutex put attempted
    | Waiting                          // blocked on the semaphore
    | UnlockFailed                     // about to lock the condition and back out
    | BackedOut                        // holds the condition, no longer linked
    | WaitFailed(error: int)           // about to lock the condition after a failed wait
    | Rechecking(error: int)           // holds the condition, linked flag not yet read
    | Decided(status: int)             // holds the condition, result fixed
    | Finishing(status: int)           // about to delete the semaphore
    | Relocking(status: int)           // about to take the user mutex again
    | Returned(status: int)

  /** One wait call. `owned` records whether the caller held the user mutex on
      entry; `wokenBy` records which notifier unlinked this waiter, if any. */
  datatype Wait = Wait(thread: Thread, owned: bool, pc: WaitPc, semaphore: Semaphore,
                       wokenBy: Option<NotifierId>, stamp: nat)
  {
    predicate Notified() { wokenBy.Some? }
  }

  datatype NotifierPc =
    | Calling                          // about to lock the condition
    | Looking                          // holds the condition, about to read `first`
    | Unlinked(target: WaitId)         // holds the condition, about to post
    | Satisfied                        // holds the condition, signal has posted
    | Left                             // released the condition

  /** One signal or broadcast call. `found` is the list when the lock was taken,
      `woken` the waiters it unlinked so far. */
  datatype Notifier = Notifier(broadcast: bool, pc: NotifierPc, found: seq<WaitId>, woken: seq<WaitId>)

  datatype Holder = Nobody | ByWait(w: WaitId) | ByNotifier(n: NotifierId)

  datatype State = State(
    user: Option<Thread>,              // owner of the user mutex
    condition: Holder,                 // owner of the condition's mutex
    list: seq<WaitId>,                 // linked waiters, oldest first
    waits: map<WaitId, Wait>,
    notifiers: map<NotifierId, Notifier>,
    nextStamp: nat)

  /** Steps of a wait. */
  datatype WaitEvent =
    | Enter(w: WaitId, t: Thread)
    | CreateSemaphore(w: WaitId, ok: bool)
    | Register(w: WaitId)              // lock the condition and append
    | ReleaseUser(w: WaitId)           // mutex_unlock(mutex)
    | LeaveCondition(w: WaitId)        // unlock the condition
    | BackOut(w: WaitId)               // lock the condition and remove
    | SemaphoreGet(w: WaitId)
    | SemaphoreFail(w: WaitId, error: int)
    | LockForRecheck(w: WaitId)
    | Recheck(w: WaitId)
    | DeleteSemaphore(w: WaitId)
    | Relock(w: WaitId)

  /** Steps of a signal or broadcast. */
  datatype NotifyEvent =
    | Notify(n: NotifierId, broadcast: bool)
    | LockForNotify(n: NotifierId)
    | Unlink(n: NotifierId)
    | Post(n: NotifierId)
    | LeaveNotify(n: NotifierId)

  datatype Event = LockUser(t: Thread) | UnlockUser(t: Thread) | OfWait(wait: WaitEvent) | OfNotify(notify: NotifyEvent)

  function Init(): State { State(None, Nobody, [], map[], map[], 0) }

  predicate IdleThread(s: State, t: Thread) {
    forall w :: w in s.waits && s.waits[w].thread == t ==> s.waits[w].pc.Returned?
  }

  predicate WaitEnabled(s: State, e: WaitEvent) {
    match e
    case Enter(w, t) => w !in s.waits && IdleThread(s, t)
    case CreateSemaphore(w, ok) => w in s.waits && s.waits[w].pc.Entered?
    case Register(w) => w in s.waits && s.waits[w].pc.Ready? && s.condition == Nobody
    case ReleaseUser(w) => w in s.waits && s.waits[w].pc.Registered?
    case LeaveCondition(w) =>
      w in s.waits && (s.waits[w].pc.Unlocked? || s.waits[w].pc.BackedOut? || s.waits[w].pc.Decided?)
    case BackOut(w) => w in s.waits && s.waits[w].pc.UnlockFailed? && s.condition == Nobody
    case SemaphoreGet(w) =>
      w in s.waits && s.waits[w].pc.Waiting? && s.waits[w].semaphore.Live? && s.waits[w].semaphore.count > 0
    // ThreadX fails a get only while the count is zero; allowing the failure at
    // any count covers every timeout and wait-abort race.
    case SemaphoreFail(w, error) => w in s.waits && s.waits[w].pc.Waiting? && error != 0
    case LockForRecheck(w) => w in s.waits && s.waits[w].pc.WaitFailed? && s.condition == Nobody
    case Recheck(w) => w in s.waits && s.waits[w].pc.Rechecking?
    case DeleteSemaphore(w) => w in s.waits && s.waits[w].pc.Finishing?
    case Relock(w) => w in s.waits && s.waits[w].pc.Relocking? && s.user == None
  }

  predicate NotifyEnabled(s: State, e: NotifyEvent) {
    match e
    case Notify(n, _) => n !in s.notifiers
    case LockForNotify(n) => n in s.notifiers && s.notifiers[n].pc.Calling? && s.condition == Nobody
    case Unlink(n) => n in s.notifiers && s.notifiers[n].pc.Looking? && s.list != []
    case Post(n) =>
      n in s.notifiers && s.notifiers[n].pc.Unlinked? && s.notifiers[n].pc.target in s.waits
    case LeaveNotify(n) =>
      n in s.notifiers &&
      (s.notifiers[n].pc.Satisfied? || (s.notifiers[n].pc.Looking? && s.list == []))
  }

  predicate Enabled(s: State, e: Event) {
    match e
    case LockUser(t) => s.user == None && IdleThread(s, t)
    case UnlockUser(t) => s.user == Some(t) && IdleThread(s, t)
    case OfWait(w) => WaitEnabled(s, w)
    case OfNotify(n) => NotifyEnabled(s, n)
  }

  function SetPc(s: State, w: WaitId, pc: WaitPc): State
    requires w in s.waits
  {
    s.(waits := s.waits[w := s.waits[w].(pc := pc)])
  }

  function SetNotifier(s: State, n: NotifierId, r: Notifier): State {
    s.(notifiers := s.notifiers[n := r])
  }

  /** remove_waiter followed by the result of the recheck under the lock. */
  function RecheckResult(s: State, w: WaitId): State
    requires w in s.waits && s.waits[w].pc.Rechecking?
  {
    var r := s.waits[w];
    if w in s.list then
      SetPc(s, w, Decided(r.pc.error)).(list := Without(s.list, w))
    else if r.semaphore.Live? && r.semaphore.count > 0 then
      s.(waits := s.waits[w := r.(pc := Decided(0), semaphore := Live(r.semaphore.count - 1))])
    else
      SetPc(s, w, Decided(r.pc.error))
  }

  /** tx_semaphore_put; a post to a semaphore that is not live has no effect here
      and is excluded for every run by PostsHitLiveSemaphores. */
  function Posted(r: Wait): Wait {
    if r.semaphore.Live? then r.(semaphore := Live(r.semaphore.count + 1)) else r
  }

  function WaitApply(s: State, e: WaitEvent): State
    requires WaitEnabled(s, e)
  {
    match e
    case Enter(w, t) => s.(waits := s.waits[w := Wait(t, s.user == Some(t), Entered, Absent, None, 0)])
    case CreateSemaphore(w, ok) =>
      if ok then s.(waits := s.waits[w := s.waits[w].(pc := Ready, semaphore := Live(0))])
      else SetPc(s, w, Returned(EAGAIN))
    case Register(w) =>
      s.(waits := s.waits[w := s.waits[w].(pc := Registered, stamp := s.nextStamp)],
         list := s.list + [w], condition := ByWait(w), nextStamp := s.nextStamp + 1)
    case ReleaseUser(w) =>
      if s.user == Some(s.waits[w].thread) then SetPc(s, w, Unlocked(0)).(user := None)
      else SetPc(s, w, Unlocked(EPERM))
    // After a failed unlock the semaphore is deleted right behind the unlock.
    case LeaveCondition(w) =>
      var pc := match s.waits[w].pc
                case Unlocked(st) => if st == 0 then Waiting else UnlockFailed
                case Decided(st) => Finishing(st)
                case _ => Returned(EPERM);
      var r := s.waits[w];
      var sem := if r.pc.BackedOut? then Deleted else r.semaphore;
      s.(waits := s.waits[w := r.(pc := pc, semaphore := sem)], condition := Nobody)
    case BackOut(w) => SetPc(s, w, BackedOut).(list := Without(s.list, w), condition := ByWait(w))
    case SemaphoreGet(w) =>
      var r := s.waits[w];
      s.(waits := s.waits[w := r.(pc := Finishing(0), semaphore := Live(r.semaphore.count - 1))])
    case SemaphoreFail(w, error) => SetPc(s, w, WaitFailed(error))
    case LockForRecheck(w) => SetPc(s, w, Rechecking(s.waits[w].pc.error)).(condition := ByWait(w))
    case Recheck(w) => RecheckResult(s, w)
    case DeleteSemaphore(w) =>
      s.(waits := s.waits[w := s.waits[w].(pc := Relocking(s.waits[w].pc.status), semaphore := Deleted)])
    case Relock(w) => SetPc(s, w, Returned(s.waits[w].pc.status)).(user := Some(s.waits[w].thread))
  }

  function NotifyApply(s: State, e: NotifyEvent): State
    requires NotifyEnabled(s, e)
  {
    match e
    case Notify(n, broadcast) => SetNotifier(s, n, Notifier(broadcast, Calling, [], []))
    case LockForNotify(n) =>
      SetNotifier(s, n, s.notifiers[n].(pc := Looking, found := s.list)).(condition := ByNotifier(n))
    case Unlink(n) =>
      var w := s.list[0];
      var r := s.notifiers[n];
      SetNotifier(s, n, r.(pc := Unlinked(w), woken := r.woken + [w])).(
        list := s.list[1..],
        waits := if w in s.waits then s.waits[w := s.waits[w].(wokenBy := Some(n))] else s.waits)
    case Post(n) =>
      var r := s.notifiers[n];
      var w := r.pc.target;
      SetNotifier(s, n, r.(pc := if r.broadcast then Looking else Satisfied)).(
        waits := s.waits[w := Posted(s.waits[w])])
    case LeaveNotify(n) => SetNotifier(s, n, s.notifiers[n].(pc := Left)).(condition := Nobody)
  }

  function Apply(s: State, e: Event): State
    requires Enabled(s, e)
  {
    match e
    case LockUser(t) => s.(user := Some(t))
    case UnlockUser(t) => s.(user := None)
    case OfWait(w) => WaitApply(s, w)
    case OfNotify(n) => NotifyApply(s, n)
  }

  // ----- Runs

  predicate ValidRun(s: State, run: seq<Event>)
    decreases |run|
  {
    run == [] || (Enabled(s, run[0]) && ValidRun(Apply(s, run[0]), run[1..]))
  }

  function After(s: State, run: seq<Event>): State
    requires ValidRun(s, run)
    decreases |run|
  {
    if run == [] then s else After(Apply(s, run[0]), run[1..])
  }

  // ----- Invariant

  predicate HoldsCondition(pc: WaitPc) {
    pc.Registered? || pc.Unlocked? || pc.BackedOut? || pc.Rechecking? || pc.Decided?
  }

  predicate NotifierHolds(pc: NotifierPc) { pc.Looking? || pc.Unlinked? || pc.Satisfied? }

  ghost predicate LocksOk(s: State) {
    && (forall w :: w in s.waits ==> (HoldsCondition(s.waits[w].pc) <==> s.condition == ByWait(w)))
    && (forall n :: n in s.notifiers ==> (NotifierHolds(s.notifiers[n].pc) <==> s.condition == ByNotifier(n)))
    && (s.condition.ByWait? ==> s.condition.w in s.waits)
    && (s.condition.ByNotifier? ==> s.condition.n in s.notifiers)
  }

  ghost predicate Ascending(list: seq<WaitId>, waits: map<WaitId, Wait>, bound: nat) {
    && (forall i :: 0 <= i < |list| ==> list[i] in waits && waits[list[i]].stamp < bound)
    && (forall i, j :: 0 <= i < j < |list| ==> waits[list[i]].stamp < waits[list[j]].stamp)
  }

  /** The linked waiters stand in the order in which they were appended. */
  ghost predicate ListOk(s: State) { Ascending(s.list, s.waits, s.nextStamp) }

  /** The notifier holding the condition has unlinked w and not posted yet. */
  predicate PostPending(s: State, w: WaitId) {
    s.condition.ByNotifier? && s.condition.n in s.notifiers && s.notifiers[s.condition.n].pc == Unlinked(w)
  }

  /** What a parked waiter looks like: linked and unnotified, or unlinked with
      its one notification posted or about to be posted. */
  predicate Parked(s: State, w: WaitId)
    requires w in s.waits
  {
    var r := s.waits[w];
    && r.semaphore.Live?
    && r.Notified() == (w !in s.list)
    && (w in s.list ==> r.semaphore.count == 0 && !PostPending(s, w))
    && (w !in s.list ==> r.semaphore.count == if PostPending(s, w) then 0 else 1)
  }

  predicate WaitOk(s: State, w: WaitId)
    requires w in s.waits
  {
    var r := s.waits[w];
    match r.pc
    case Entered => r.semaphore == Absent && w !in s.list && !r.Notified() && !PostPending(s, w)
    case Ready => r.semaphore == Live(0) && w !in s.list && !r.Notified() && !PostPending(s, w)
    case Registered => w in s.list && Parked(s, w)
    case Unlocked(st) => w in s.list && Parked(s, w) && (if r.owned then st == 0 else st == EPERM)
    case Waiting => Parked(s, w) && r.owned
    case UnlockFailed => Parked(s, w) && !r.owned
    case BackedOut => w !in s.list && r.semaphore.Live? && !r.owned && !PostPending(s, w)
    case WaitFailed(error) => Parked(s, w) && r.owned && error != 0
    case Rechecking(error) => Parked(s, w) && r.owned && error != 0
    case Decided(st) => Settled(s, w, st) && r.semaphore == Live(0)
    case Finishing(st) => Settled(s, w, st) && r.semaphore == Live(0)
    case Relocking(st) => Settled(s, w, st) && r.semaphore == Deleted
    case Returned(st) =>
      && w !in s.list && !PostPending(s, w) && !r.semaphore.Live?
      && (r.semaphore == Absent ==> st == EAGAIN && !r.Notified())
      && (r.semaphore == Deleted && r.owned ==> (st == 0 <==> r.Notified()))
      && (r.semaphore == Deleted && !r.owned ==> st == EPERM)
  }

  predicate Settled(s: State, w: WaitId, st: int)
    requires w in s.waits
  {
    var r := s.waits[w];
    w !in s.list && !PostPending(s, w) && r.owned && (st == 0 <==> r.Notified())
  }

  predicate BeforeRelease(pc: WaitPc) { pc.Entered? || pc.Ready? || pc.Registered? }

  predicate Active(s: State, w: WaitId)
    requires w in s.waits
  {
    !s.waits[w].pc.Returned?
  }

  ghost predicate OwnershipOk(s: State) {
    && (forall w :: w in s.waits && BeforeRelease(s.waits[w].pc) ==>
          (s.waits[w].owned <==> s.user == Some(s.waits[w].thread)))
    && (forall v, w :: v in s.waits && w in s.waits && Active(s, v) && Active(s, w) ==>
          s.waits[v].thread != s.waits[w].thread || v == w)
  }

  /** While a notifier holds the condition, what it found is what it has woken
      followed by what is still linked. */
  predicate NotifierOk(s: State, n: NotifierId)
    requires n in s.notifiers
  {
    var r := s.notifiers[n];
    match r.pc
    case Calling => r.woken == [] && r.found == []
    case Looking => r.found == r.woken + s.list && (!r.broadcast ==> r.woken == [])
    case Unlinked(w) =>
      && r.found == r.woken + s.list && r.woken != [] && w == r.woken[|r.woken| - 1]
      && (!r.broadcast ==> |r.woken| == 1)
    case Satisfied => !r.broadcast && |r.woken| == 1 && r.found == r.woken + s.list
    case Left => r.woken == if r.broadcast then r.found else FirstOnly(r.found)
  }

  /** A waiter is notified exactly when one notifier, and only one, woke it. */
  ghost predicate WokenOk(s: State) {
    && (forall n, i :: n in s.notifiers && 0 <= i < |s.notifiers[n].woken| ==>
          && s.notifiers[n].woken[i] in s.waits
          && s.waits[s.notifiers[n].woken[i]].wokenBy == Some(n))
    && (forall w :: w in s.waits && s.waits[w].wokenBy.Some? ==>
          && s.waits[w].wokenBy.value in s.notifiers
          && w in s.notifiers[s.waits[w].wokenBy.value].woken)
    && (forall n :: n in s.notifiers ==> s.notifiers[n].woken <= s.notifiers[n].found && Distinct(s.notifiers[n].found))
  }

  ghost predicate Inv(s: State) {
    && LocksOk(s)
    && ListOk(s)
    && OwnershipOk(s)
    && (forall w :: w in s.waits ==> WaitOk(s, w))
    && (forall n :: n in s.notifiers ==> NotifierOk(s, n))
    && WokenOk(s)
  }

  // ----- Steps of a waiter keep the invariant

  /** Only wait w changed, and not who it is or who woke it. */
  ghost predicate ChangesOnly(s: State, s': State, w: WaitId) {
    && w in s'.waits && s'.waits.Keys == s.waits.Keys + {w} && s'.notifiers == s.notifiers
    && (forall x :: x in s.waits && x != w ==> s'.waits[x] == s.waits[x])
    && (if w in s.waits then
          && s'.waits[w].wokenBy == s.waits[w].wokenBy && s'.waits[w].thread == s.waits[w].thread
          && s'.waits[w].owned == s.waits[w].owned
        else
          s'.waits[w].wokenBy == None)
  }

  predicate LockMoves(s: State, s': State, w: WaitId)
    requires w in s'.waits
  {
    && (|| s'.condition == s.condition
        || (s.condition == Nobody && s'.condition == ByWait(w))
        || (s.condition == ByWait(w) && s'.condition == Nobody))
    && (HoldsCondition(s'.waits[w].pc) <==> s'.condition == ByWait(w))
  }

  ghost predicate ListMoves(s: State, s': State, w: WaitId)
    requires w in s'.waits
  {
    || (s'.list == s.list && s'.nextStamp == s.nextStamp && (w in s.list ==> SameStamp(s, s', w)))
    || (s'.list == Without(s.list, w) && s'.nextStamp == s.nextStamp && s'.condition == ByWait(w))
    || (&& s'.list == s.list + [w] && w !in s.list && s'.condition == ByWait(w)
        && s'.waits[w].stamp == s.nextStamp && s'.nextStamp == s.nextStamp + 1)
  }

  predicate SameStamp(s: State, s': State, w: WaitId) {
    w in s.waits && w in s'.waits && s'.waits[w].stamp == s.waits[w].stamp
  }

  lemma FrameWait(s: State, s': State, x: WaitId)
    requires x in s.waits && x in s'.waits && s.waits[x] == s'.waits[x]
    requires x in s.list <==> x in s'.list
    requires PostPending(s, x) == PostPending(s', x)
    ensures WaitOk(s, x) == WaitOk(s', x)
  {
  }

  lemma DistinctList(s: State)
    requires ListOk(s)
    ensures Distinct(s.list)
  {
  }

  lemma WaiterKeepsLocks(s: State, s': State, w: WaitId)
    requires LocksOk(s) && ChangesOnly(s, s', w) && LockMoves(s, s', w)
    ensures LocksOk(s')
  {
  }

  lemma AscendingCut(list: seq<WaitId>, waits: map<WaitId, Wait>, bound: nat, k: nat)
    requires Ascending(list, waits, bound) && k < |list|
    ensures Ascending(list[..k] + list[k + 1..], waits, bound)
  {
    var cut := list[..k] + list[k + 1..];
    forall i | 0 <= i < |cut|
      ensures cut[i] == list[if i < k then i else i + 1]
    {
    }
  }

  lemma AscendingFrame(list: seq<WaitId>, waits: map<WaitId, Wait>, waits': map<WaitId, Wait>, bound: nat)
    requires Ascending(list, waits, bound)
    requires forall x :: x in list ==> x in waits' && (x in waits ==> waits'[x].stamp == waits[x].stamp)
    ensures Ascending(list, waits', bound)
  {
  }

  lemma RemovalKeepsList(s: State, s': State, w: WaitId)
    requires ListOk(s) && ChangesOnly(s, s', w)
    requires s'.list == Without(s.list, w) && s'.nextStamp == s.nextStamp
    ensures ListOk(s')
  {
    DistinctList(s);
    if w in s.list {
      var k :| 0 <= k < |s.list| && s.list[k] == w;
      WithoutAt(s.list, k);
      AscendingCut(s.list, s.waits, s.nextStamp, k);
    }
    WithoutMembers(s.list, w);
    AscendingFrame(s'.list, s.waits, s'.waits, s.nextStamp);
  }

  lemma AppendKeepsList(s: State, s': State, w: WaitId)
    requires ListOk(s) && ChangesOnly(s, s', w) && w !in s.list && s'.list == s.list + [w]
    requires s'.waits[w].stamp == s.nextStamp && s'.nextStamp == s.nextStamp + 1
    ensures ListOk(s')
  {
    AscendingFrame(s.list, s.waits, s'.waits, s.nextStamp);
  }

  lemma WaiterKeepsList(s: State, s': State, w: WaitId)
    requires ListOk(s) && ChangesOnly(s, s', w) && ListMoves(s, s', w)
    ensures ListOk(s')
  {
    if s'.list == s.list + [w] && s'.nextStamp == s.nextStamp + 1 {
      AppendKeepsList(s, s', w);
    } else if s'.list == s.list && (w in s.list ==> SameStamp(s, s', w)) {
      AscendingFrame(s.list, s.waits, s'.waits, s.nextStamp);
    } else {
      RemovalKeepsList(s, s', w);
    }
  }

  lemma WaiterKeepsNotifiers(s: State, s': State, w: WaitId)
    requires LocksOk(s) && ChangesOnly(s, s', w) && LockMoves(s, s', w) && ListMoves(s, s', w)
    requires forall n :: n in s.notifiers ==> NotifierOk(s, n)
    ensures forall n :: n in s'.notifiers ==> NotifierOk(s', n)
  {
    WaiterKeepsLocks(s, s', w);
    forall n | n in s'.notifiers
      ensures NotifierOk(s', n)
    {
      assert NotifierOk(s, n);
      assert NotifierHolds(s.notifiers[n].pc) ==> s'.condition == ByNotifier(n);
    }
  }

  lemma WaiterKeepsWoken(s: State, s': State, w: WaitId)
    requires WokenOk(s) && ChangesOnly(s, s', w)
    ensures WokenOk(s')
  {
    forall n, i | n in s'.notifiers && 0 <= i < |s'.notifiers[n].woken|
      ensures s'.notifiers[n].woken[i] in s'.waits && s'.waits[s'.notifiers[n].woken[i]].wokenBy == Some(n)
    {
      assert s.notifiers[n].woken[i] in s.waits;
    }
  }

  lemma WaiterKeepsWaits(s: State, s': State, w: WaitId)
    requires LocksOk(s) && ChangesOnly(s, s', w) && LockMoves(s, s', w) && ListMoves(s, s', w)
    requires forall x :: x in s.waits ==> WaitOk(s, x)
    requires WaitOk(s', w)
    ensures forall x :: x in s'.waits ==> WaitOk(s', x)
  {
    WithoutMembers(s.list, w);
    forall x | x in s'.waits
      ensures WaitOk(s', x)
    {
      if x != w {
        assert WaitOk(s, x);
        FrameWait(s, s', x);
      }
    }
  }

  /** A step of one waiter keeps the invariant when it leaves that waiter, the
      locks, the list and the ownership of the user mutex in order. */
  lemma WaiterStep(s: State, s': State, w: WaitId)
    requires Inv(s) && ChangesOnly(s, s', w) && LockMoves(s, s', w) && ListMoves(s, s', w)
    requires WaitOk(s', w) && OwnershipOk(s')
    ensures Inv(s')
  {
    WaiterKeepsLocks(s, s', w);
    WaiterKeepsList(s, s', w);
    WaiterKeepsNotifiers(s, s', w);
    WaiterKeepsWoken(s, s', w);
    WaiterKeepsWaits(s, s', w);
  }

  /** The user mutex stays in order when the stepping waiter does not touch it. */
  lemma OwnershipStep(s: State, s': State, w: WaitId)
    requires OwnershipOk(s) && ChangesOnly(s, s', w) && s'.user == s.user && w in s.waits
    requires BeforeRelease(s'.waits[w].pc) ==> BeforeRelease(s.waits[w].pc)
    requires !s.waits[w].pc.Returned?
    ensures OwnershipOk(s')
  {
  }

  lemma UserMutexKeepsInv(s: State, e: Event)
    requires Inv(s) && Enabled(s, e) && (e.LockUser? || e.UnlockUser?)
    ensures Inv(Apply(s, e))
  {
    var s' := Apply(s, e);
    UserMutexFrame(s, s');
    assert OwnershipOk(s');
  }

  lemma UserMutexFrame(s: State, s': State)
    requires s' == s.(user := s'.user)
    ensures LocksOk(s) == LocksOk(s') && WokenOk(s) == WokenOk(s')
    ensures forall x :: x in s.waits ==> WaitOk(s', x) == WaitOk(s, x)
    ensures forall n :: n in s.notifiers ==> NotifierOk(s', n) == NotifierOk(s, n)
  {
    forall x | x in s.waits ensures WaitOk(s', x) == WaitOk(s, x) { FrameWait(s, s', x); }
  }

  lemma PendingIsKnown(s: State, w: WaitId)
    requires Inv(s) && PostPending(s, w)
    ensures w in s.waits
  {
    var r := s.notifiers[s.condition.n];
    assert NotifierOk(s, s.condition.n);
    assert r.woken[|r.woken| - 1] in s.waits;
  }

  lemma EnterKeepsInv(s: State, w: WaitId, t: Thread)
    requires Inv(s) && WaitEnabled(s, Enter(w, t))
    ensures Inv(WaitApply(s, Enter(w, t)))
  {
    var s' := WaitApply(s, Enter(w, t));
    if PostPending(s, w) {
      PendingIsKnown(s, w);
    }
    WaiterStep(s, s', w);
  }

  lemma CreateSemaphoreKeepsInv(s: State, w: WaitId, ok: bool)
    requires Inv(s) && WaitEnabled(s, CreateSemaphore(w, ok))
    ensures Inv(WaitApply(s, CreateSemaphore(w, ok)))
  {
    var s' := WaitApply(s, CreateSemaphore(w, ok));
    assert WaitOk(s, w);
    OwnershipStep(s, s', w);
    SameListAndLock(s, s', w);
    WaiterStep(s, s', w);
  }

  /** A step that changes neither list nor lock only has to mind its own waiter. */
  lemma SameListAndLock(s: State, s': State, w: WaitId)
    requires LocksOk(s) && ChangesOnly(s, s', w) && w in s.waits
    requires s'.list == s.list && s'.nextStamp == s.nextStamp && s'.condition == s.condition
    requires s'.waits[w].stamp == s.waits[w].stamp
    requires HoldsCondition(s'.waits[w].pc) == HoldsCondition(s.waits[w].pc)
    ensures LockMoves(s, s', w) && ListMoves(s, s', w)
  {
  }

  lemma RegisterKeepsInv(s: State, w: WaitId)
    requires Inv(s) && WaitEnabled(s, Register(w))
    ensures Inv(WaitApply(s, Register(w)))
  {
    var s' := WaitApply(s, Register(w));
    assert WaitOk(s, w);
    OwnershipStep(s, s', w);
    WaiterStep(s, s', w);
  }

  lemma ReleaseUserKeepsInv(s: State, w: WaitId)
    requires Inv(s) && WaitEnabled(s, ReleaseUser(w))
    ensures Inv(WaitApply(s, ReleaseUser(w)))
  {
    var s' := WaitApply(s, ReleaseUser(w));
    assert WaitOk(s, w);
    assert OwnershipOk(s');
    WaiterStep(s, s', w);
  }

  lemma LeaveConditionKeepsInv(s: State, w: WaitId)
    requires Inv(s) && WaitEnabled(s, LeaveCondition(w))
    ensures Inv(WaitApply(s, LeaveCondition(w)))
  {
    var s' := WaitApply(s, LeaveCondition(w));
    assert WaitOk(s, w);
    OwnershipStep(s, s', w);
    WaiterStep(s, s', w);
  }

  lemma BackOutKeepsInv(s: State, w: WaitId)
    requires Inv(s) && WaitEnabled(s, BackOut(w))
    ensures Inv(WaitApply(s, BackOut(w)))
  {
    var s' := WaitApply(s, BackOut(w));
    WithoutMembers(s.list, w);
    assert WaitOk(s, w);
    OwnershipStep(s, s', w);
    WaiterStep(s, s', w);
  }

  lemma SemaphoreGetKeepsInv(s: State, w: WaitId)
    requires Inv(s) && WaitEnabled(s, SemaphoreGet(w))
    ensures Inv(WaitApply(s, SemaphoreGet(w)))
  {
    var s' := WaitApply(s, SemaphoreGet(w));
    assert WaitOk(s, w);
    OwnershipStep(s, s', w);
    WaiterStep(s, s', w);
  }

  lemma SemaphoreFailKeepsInv(s: State, w: WaitId, error: int)
    requires Inv(s) && WaitEnabled(s, SemaphoreFail(w, error))
    ensures Inv(WaitApply(s, SemaphoreFail(w, error)))
  {
    var s' := WaitApply(s, SemaphoreFail(w, error));
    assert WaitOk(s, w);
    OwnershipStep(s, s', w);
    WaiterStep(s, s', w);
  }

  lemma LockForRecheckKeepsInv(s: State, w: WaitId)
    requires Inv(s) && WaitEnabled(s, LockForRecheck(w))
    ensures Inv(WaitApply(s, LockForRecheck(w)))
  {
    var s' := WaitApply(s, LockForRecheck(w));
    assert WaitOk(s, w);
    OwnershipStep(s, s', w);
    WaiterStep(s, s', w);
  }

  lemma DeleteSemaphoreKeepsInv(s: State, w: WaitId)
    requires Inv(s) && WaitEnabled(s, DeleteSemaphore(w))
    ensures Inv(WaitApply(s, DeleteSemaphore(w)))
  {
    var s' := WaitApply(s, DeleteSemaphore(w));
    assert WaitOk(s, w);
    OwnershipStep(s, s', w);
    WaiterStep(s, s', w);
  }

  lemma RecheckKeepsInv(s: State, w: WaitId)
    requires Inv(s) && WaitEnabled(s, Recheck(w))
    ensures Inv(WaitApply(s, Recheck(w)))
  {
    var s' := WaitApply(s, Recheck(w));
    WithoutMembers(s.list, w);
    assert WaitOk(s, w);
    OwnershipStep(s, s', w);
    WaiterStep(s, s', w);
  }

  lemma RelockKeepsInv(s: State, w: WaitId)
    requires Inv(s) && WaitEnabled(s, Relock(w))
    ensures Inv(WaitApply(s, Relock(w)))
  {
    var s' := WaitApply(s, Relock(w));
    assert WaitOk(s, w);
    RelockKeepsOwnership(s, w);
    WaiterStep(s, s', w);
  }

  lemma RelockKeepsOwnership(s: State, w: WaitId)
    requires OwnershipOk(s) && WaitEnabled(s, Relock(w))
    ensures OwnershipOk(WaitApply(s, Relock(w)))
  {
  }

  // ----- Steps of a notifier keep the invariant

  /** Only notifier n changed, and the lock is passed to or from it. */
  predicate ChangesOnlyNotifier(s: State, s': State, n: NotifierId) {
    && n in s'.notifiers
    && s' == s.(notifiers := s.notifiers[n := s'.notifiers[n]], condition := s'.condition)
    && (if n in s.notifiers then s'.notifiers[n].woken == s.notifiers[n].woken else s'.notifiers[n].woken == [])
    && (|| s'.condition == s.condition
        || (s.condition == Nobody && s'.condition == ByNotifier(n))
        || (s.condition == ByNotifier(n) && s'.condition == Nobody))
    && (NotifierHolds(s'.notifiers[n].pc) <==> s'.condition == ByNotifier(n))
    && !s'.notifiers[n].pc.Unlinked?
    && (n in s.notifiers ==> !s.notifiers[n].pc.Unlinked?)
  }

  lemma NotifierKeepsWaits(s: State, s': State, n: NotifierId)
    requires LocksOk(s) && ChangesOnlyNotifier(s, s', n)
    requires forall w :: w in s.waits ==> WaitOk(s, w)
    ensures forall w :: w in s'.waits ==> WaitOk(s', w)
  {
    forall w | w in s'.waits
      ensures WaitOk(s', w)
    {
      assert WaitOk(s, w);
      FrameWait(s, s', w);
    }
  }

  lemma NotifierKeepsOthers(s: State, s': State, n: NotifierId)
    requires LocksOk(s) && ChangesOnlyNotifier(s, s', n)
    requires forall m :: m in s.notifiers ==> NotifierOk(s, m)
    requires NotifierOk(s', n)
    ensures forall m :: m in s'.notifiers ==> NotifierOk(s', m)
  {
    forall m | m in s'.notifiers
      ensures NotifierOk(s', m)
    {
      if m != n {
        assert NotifierOk(s, m);
      }
    }
  }

  lemma NotifierKeepsLocks(s: State, s': State, n: NotifierId)
    requires LocksOk(s) && ChangesOnlyNotifier(s, s', n)
    ensures LocksOk(s')
  {
  }

  lemma NotifierKeepsWoken(s: State, s': State, n: NotifierId)
    requires WokenOk(s) && ChangesOnlyNotifier(s, s', n)
    requires s'.notifiers[n].woken <= s'.notifiers[n].found && Distinct(s'.notifiers[n].found)
    ensures WokenOk(s')
  {
  }

  lemma NotifierStep(s: State, s': State, n: NotifierId)
    requires Inv(s) && ChangesOnlyNotifier(s, s', n) && NotifierOk(s', n)
    requires s'.notifiers[n].woken <= s'.notifiers[n].found && Distinct(s'.notifiers[n].found)
    ensures Inv(s')
  {
    NotifierKeepsWaits(s, s', n);
    NotifierKeepsOthers(s, s', n);
    NotifierKeepsLocks(s, s', n);
    NotifierKeepsWoken(s, s', n);
  }

  lemma NotifyKeepsInv(s: State, n: NotifierId, broadcast: bool)
    requires Inv(s) && NotifyEnabled(s, Notify(n, broadcast))
    ensures Inv(NotifyApply(s, Notify(n, broadcast)))
  {
    NotifierStep(s, NotifyApply(s, Notify(n, broadcast)), n);
  }

  lemma LockForNotifyKeepsInv(s: State, n: NotifierId)
    requires Inv(s) && NotifyEnabled(s, LockForNotify(n))
    ensures Inv(NotifyApply(s, LockForNotify(n)))
  {
    DistinctList(s);
    assert NotifierOk(s, n);
    NotifierStep(s, NotifyApply(s, LockForNotify(n)), n);
  }

  lemma LeaveNotifyKeepsInv(s: State, n: NotifierId)
    requires Inv(s) && NotifyEnabled(s, LeaveNotify(n))
    ensures Inv(NotifyApply(s, LeaveNotify(n)))
  {
    assert NotifierOk(s, n);
    NotifierStep(s, NotifyApply(s, LeaveNotify(n)), n);
  }

  /** The head of the list is a parked waiter that nobody has woken. */
  lemma HeadIsParked(s: State)
    requires Inv(s) && s.list != []
    ensures s.list[0] in s.waits && Parked(s, s.list[0]) && !s.waits[s.list[0]].Notified()
    ensures s.list[0] !in s.list[1..]
    ensures !HoldsCondition(s.waits[s.list[0]].pc) || s.condition == ByWait(s.list[0])
  {
    DistinctList(s);
    assert WaitOk(s, s.list[0]);
  }

  lemma UnlinkKeepsInv(s: State, n: NotifierId)
    requires Inv(s) && NotifyEnabled(s, Unlink(n))
    ensures Inv(NotifyApply(s, Unlink(n)))
  {
    HeadIsParked(s);
    UnlinkKeepsWaits(s, n);
    UnlinkKeepsRest(s, n);
    UnlinkKeepsWoken(s, n);
    UnlinkKeepsList(s, n);
  }

  lemma UnlinkKeepsList(s: State, n: NotifierId)
    requires Inv(s) && NotifyEnabled(s, Unlink(n))
    ensures ListOk(NotifyApply(s, Unlink(n)))
  {
    AscendingCut(s.list, s.waits, s.nextStamp, 0);
    assert s.list[..0] + s.list[1..] == s.list[1..];
    AscendingFrame(s.list[1..], s.waits, NotifyApply(s, Unlink(n)).waits, s.nextStamp);
  }

  lemma UnlinkKeepsWaits(s: State, n: NotifierId)
    requires Inv(s) && NotifyEnabled(s, Unlink(n))
    ensures var s' := NotifyApply(s, Unlink(n)); forall w :: w in s'.waits ==> WaitOk(s', w)
  {
    var s' := NotifyApply(s, Unlink(n));
    HeadIsParked(s);
    forall w | w in s'.waits
      ensures WaitOk(s', w)
    {
      assert WaitOk(s, w);
      if w != s.list[0] {
        FrameWait(s, s', w);
      }
    }
  }

  /** Waits that change in neither phase, thread nor ownership keep locks and ownership in order. */
  lemma SamePhases(s: State, s': State, n: NotifierId)
    requires LocksOk(s) && OwnershipOk(s) && s'.user == s.user && s'.condition == s.condition
    requires s'.waits.Keys == s.waits.Keys
    requires forall w :: w in s.waits ==>
      && s'.waits[w].pc == s.waits[w].pc && s'.waits[w].thread == s.waits[w].thread
      && s'.waits[w].owned == s.waits[w].owned
    requires n in s.notifiers && n in s'.notifiers && s'.notifiers == s.notifiers[n := s'.notifiers[n]]
    requires NotifierHolds(s.notifiers[n].pc) && NotifierHolds(s'.notifiers[n].pc)
    ensures LocksOk(s') && OwnershipOk(s')
  {
  }

  /** The notifier that holds the condition only has to mind itself. */
  lemma HolderKeepsOthers(s: State, s': State, n: NotifierId)
    requires LocksOk(s) && s.condition == ByNotifier(n)
    requires n in s.notifiers && n in s'.notifiers && s'.notifiers == s.notifiers[n := s'.notifiers[n]]
    requires forall m :: m in s.notifiers ==> NotifierOk(s, m)
    requires NotifierOk(s', n)
    ensures forall m :: m in s'.notifiers ==> NotifierOk(s', m)
  {
    forall m | m in s'.notifiers
      ensures NotifierOk(s', m)
    {
      if m != n {
        assert NotifierOk(s, m);
      }
    }
  }

  lemma UnlinkKeepsRest(s: State, n: NotifierId)
    requires Inv(s) && NotifyEnabled(s, Unlink(n))
    ensures var s' := NotifyApply(s, Unlink(n));
      LocksOk(s') && OwnershipOk(s') && forall m :: m in s'.notifiers ==> NotifierOk(s', m)
  {
    var s' := NotifyApply(s, Unlink(n));
    SamePhases(s, s', n);
    UnlinkKeepsNotifier(s, n);
    HolderKeepsOthers(s, s', n);
  }

  lemma UnlinkKeepsNotifier(s: State, n: NotifierId)
    requires NotifyEnabled(s, Unlink(n)) && NotifierOk(s, n)
    ensures NotifierOk(NotifyApply(s, Unlink(n)), n)
  {
    assert s.list == [s.list[0]] + s.list[1..];
  }

  lemma UnlinkMarksWoken(s: State, n: NotifierId)
    requires Inv(s) && NotifyEnabled(s, Unlink(n))
    ensures var s' := NotifyApply(s, Unlink(n));
      forall m, i :: m in s'.notifiers && 0 <= i < |s'.notifiers[m].woken| ==>
        s'.notifiers[m].woken[i] in s'.waits && s'.waits[s'.notifiers[m].woken[i]].wokenBy == Some(m)
  {
    var s' := NotifyApply(s, Unlink(n));
    HeadIsParked(s);
    forall m, i | m in s'.notifiers && 0 <= i < |s'.notifiers[m].woken|
      ensures s'.notifiers[m].woken[i] in s'.waits && s'.waits[s'.notifiers[m].woken[i]].wokenBy == Some(m)
    {
      if m != n || i < |s.notifiers[n].woken| {
        assert s.notifiers[m].woken[i] == s'.notifiers[m].woken[i];
      }
    }
  }

  lemma UnlinkKeepsWoken(s: State, n: NotifierId)
    requires Inv(s) && NotifyEnabled(s, Unlink(n))
    ensures WokenOk(NotifyApply(s, Unlink(n)))
  {
    var s' := NotifyApply(s, Unlink(n));
    var w := s.list[0];
    HeadIsParked(s);
    UnlinkMarksWoken(s, n);
    assert NotifierOk(s, n);
    assert s.list == [w] + s.list[1..];
    assert w == s'.notifiers[n].woken[|s.notifiers[n].woken|];
  }

  lemma PostKeepsInv(s: State, n: NotifierId)
    requires Inv(s) && NotifyEnabled(s, Post(n))
    ensures Inv(NotifyApply(s, Post(n)))
  {
    PostKeepsWaits(s, n);
    PostKeepsRest(s, n);
  }

  lemma PostKeepsWaits(s: State, n: NotifierId)
    requires Inv(s) && NotifyEnabled(s, Post(n))
    ensures var s' := NotifyApply(s, Post(n)); forall w :: w in s'.waits ==> WaitOk(s', w)
  {
    var s' := NotifyApply(s, Post(n));
    forall w | w in s'.waits
      ensures WaitOk(s', w)
    {
      assert WaitOk(s, w);
      if w != s.notifiers[n].pc.target {
        FrameWait(s, s', w);
      }
    }
  }

  lemma PostKeepsRest(s: State, n: NotifierId)
    requires Inv(s) && NotifyEnabled(s, Post(n))
    ensures var s' := NotifyApply(s, Post(n));
      && LocksOk(s') && ListOk(s') && OwnershipOk(s') && WokenOk(s')
      && forall m :: m in s'.notifiers ==> NotifierOk(s', m)
  {
    var s' := NotifyApply(s, Post(n));
    AscendingFrame(s.list, s.waits, s'.waits, s.nextStamp);
    SamePhases(s, s', n);
    assert NotifierOk(s, n);
    HolderKeepsOthers(s, s', n);
    PostKeepsWoken(s, n);
  }

  lemma PostKeepsWoken(s: State, n: NotifierId)
    requires WokenOk(s) && NotifyEnabled(s, Post(n))
    ensures WokenOk(NotifyApply(s, Post(n)))
  {
  }

  lemma WaitStepKeepsInv(s: State, e: WaitEvent)
    requires Inv(s) && WaitEnabled(s, e)
    ensures Inv(WaitApply(s, e))
  {
    match e
    case Enter(w, t) => EnterKeepsInv(s, w, t);
    case CreateSemaphore(w, ok) => CreateSemaphoreKeepsInv(s, w, ok);
    case Register(w) => RegisterKeepsInv(s, w);
    case ReleaseUser(w) => ReleaseUserKeepsInv(s, w);
    case LeaveCondition(w) => LeaveConditionKeepsInv(s, w);
    case BackOut(w) => BackOutKeepsInv(s, w);
    case SemaphoreGet(w) => SemaphoreGetKeepsInv(s, w);
    case SemaphoreFail(w, error) => SemaphoreFailKeepsInv(s, w, error);
    case LockForRecheck(w) => LockForRecheckKeepsInv(s, w);
    case Recheck(w) => RecheckKeepsInv(s, w);
    case DeleteSemaphore(w) => DeleteSemaphoreKeepsInv(s, w);
    case Relock(w) => RelockKeepsInv(s, w);
  }

  lemma NotifyStepKeepsInv(s: State, e: NotifyEvent)
    requires Inv(s) && NotifyEnabled(s, e)
    ensures Inv(NotifyApply(s, e))
  {
    match e
    case Notify(n, broadcast) => NotifyKeepsInv(s, n, broadcast);
    case LockForNotify(n) => LockForNotifyKeepsInv(s, n);
    case Unlink(n) => UnlinkKeepsInv(s, n);
    case Post(n) => PostKeepsInv(s, n);
    case LeaveNotify(n) => LeaveNotifyKeepsInv(s, n);
  }

  lemma StepKeepsInv(s: State, e: Event)
    requires Inv(s) && Enabled(s, e)
    ensures Inv(Apply(s, e))
  {
    match e
    case LockUser(t) => UserMutexKeepsInv(s, e);
    case UnlockUser(t) => UserMutexKeepsInv(s, e);
    case OfWait(w) => WaitStepKeepsInv(s, w);
    case OfNotify(n) => NotifyStepKeepsInv(s, n);
  }

  lemma {:induction false} RunKeepsInv(s: State, run: seq<Event>)
    requires Inv(s) && ValidRun(s, run)
    ensures Inv(After(s, run))
    decreases |run|
  {
    if run != [] {
      StepKeepsInv(s, run[0]);
      RunKeepsInv(Apply(s, run[0]), run[1..]);
    }
  }

  // ----- What every run promises

  ghost predicate Reachable(s: State) {
    exists run :: ValidRun(Init(), run) && After(Init(), run) == s
  }

  lemma ReachableInv(s: State)
    requires Reachable(s)
    ensures Inv(s)
  {
    var run :| ValidRun(Init(), run) && After(Init(), run) == s;
    RunKeepsInv(Init(), run);
  }

  /** A wait by a thread that owned its mutex returns 0 exactly when a notifier
      unlinked it, whatever timeouts and aborts raced with the notification. */
  lemma ReturnsZeroIffNotified(s: State, w: WaitId)
    requires Reachable(s) && w in s.waits && s.waits[w].pc.Returned? && s.waits[w].owned
    ensures s.waits[w].pc.status == 0 <==> s.waits[w].Notified()
  {
    ReachableInv(s);
    assert WaitOk(s, w);
  }

  /** Without ownership the wait never succeeds, so a notification that reached
      it is lost; SwallowedSignal shows that this happens. */
  lemma UnownedWaitFails(s: State, w: WaitId)
    requires Reachable(s) && w in s.waits && s.waits[w].pc.Returned? && !s.waits[w].owned
    ensures s.waits[w].pc.status == EPERM || s.waits[w].pc.status == EAGAIN
  {
    ReachableInv(s);
    assert WaitOk(s, w);
  }

  /** A finished signal woke exactly the oldest waiter it found, a finished
      broadcast all of them in order of arrival, and each of those waits has
      this notifier and no other as the one that woke it. */
  lemma NotifierWakesWhatItFound(s: State, n: NotifierId, w: WaitId)
    requires Reachable(s) && n in s.notifiers && s.notifiers[n].pc.Left?
    ensures s.notifiers[n].woken ==
      if s.notifiers[n].broadcast then s.notifiers[n].found else FirstOnly(s.notifiers[n].found)
    ensures Distinct(s.notifiers[n].found)
    ensures w in s.notifiers[n].woken <==> w in s.waits && s.waits[w].wokenBy == Some(n)
  {
    ReachableInv(s);
    assert NotifierOk(s, n);
  }

  /** What a notifier finds when it takes the lock is every waiter that has
      released the user mutex and is still unnotified, in order of arrival. */
  lemma LockFindsEveryWaiter(s: State, n: NotifierId, w: WaitId)
    requires Reachable(s) && NotifyEnabled(s, LockForNotify(n))
    requires w in s.waits && !s.waits[w].Notified()
    requires s.waits[w].pc.Waiting? || s.waits[w].pc.WaitFailed?
    ensures w in NotifyApply(s, LockForNotify(n)).notifiers[n].found
  {
    ReachableInv(s);
    assert WaitOk(s, w);
  }

  lemma FoundIsOldestFirst(s: State, n: NotifierId, i: nat, j: nat)
    requires Reachable(s) && NotifyEnabled(s, LockForNotify(n))
    requires i < j < |NotifyApply(s, LockForNotify(n)).notifiers[n].found|
    ensures var found := NotifyApply(s, LockForNotify(n)).notifiers[n].found;
      found[i] in s.waits && found[j] in s.waits && s.waits[found[i]].stamp < s.waits[found[j]].stamp
  {
    ReachableInv(s);
  }

  /** Every post goes to an existing semaphore that holds no count yet. */
  lemma PostsHitLiveSemaphores(s: State, n: NotifierId)
    requires Reachable(s) && n in s.notifiers && s.notifiers[n].pc.Unlinked?
    ensures NotifyEnabled(s, Post(n)) && s.waits[s.notifiers[n].pc.target].semaphore == Live(0)
  {
    ReachableInv(s);
    var w := s.notifiers[n].pc.target;
    assert PostPending(s, w);
    PendingIsKnown(s, w);
    assert WaitOk(s, w);
    assert s.waits[w].wokenBy == Some(n) by {
      assert NotifierOk(s, n);
      assert s.notifiers[n].woken[|s.notifiers[n].woken| - 1] == w;
    }
  }

  lemma {:induction false} RunsConcatenate(s: State, a: seq<Event>, b: seq<Event>)
    requires ValidRun(s, a) && ValidRun(After(s, a), b)
    ensures ValidRun(s, a + b) && After(s, a + b) == After(After(s, a), b)
    decreases |a|
  {
    if a == [] {
      assert a + b == b;
    } else {
      assert (a + b)[1..] == a[1..] + b;
      RunsConcatenate(Apply(s, a[0]), a[1..], b);
    }
  }

  /** A notification, the calling thread and the ownership recorded at entry are
      never undone. */
  lemma {:induction false} NotificationIsStable(s: State, run: seq<Event>, w: WaitId)
    requires ValidRun(s, run) && w in s.waits
    ensures w in After(s, run).waits && After(s, run).waits[w].owned == s.waits[w].owned
    ensures After(s, run).waits[w].thread == s.waits[w].thread
    ensures s.waits[w].Notified() ==> After(s, run).waits[w].Notified()
    decreases |run|
  {
    if run != [] {
      NotificationIsStable(Apply(s, run[0]), run[1..], w);
    }
  }

  /** From the moment a notifier unlinks the oldest waiter, every continuation in
      which that wait returns has it return 0. */
  lemma OldestReturnsZero(s: State, n: NotifierId, later: seq<Event>)
    requires Reachable(s) && NotifyEnabled(s, Unlink(n)) && ValidRun(NotifyApply(s, Unlink(n)), later)
    ensures var w := s.list[0]; var t := After(NotifyApply(s, Unlink(n)), later);
      && w in s.waits && w in t.waits
      && (forall x :: x in s.list ==> x in s.waits && s.waits[w].stamp <= s.waits[x].stamp)
      && (t.waits[w].pc.Returned? && s.waits[w].owned ==> t.waits[w].pc.status == 0)
  {
    var w := s.list[0];
    var u := NotifyApply(s, Unlink(n));
    ReachableInv(s);
    HeadIsParked(s);
    ReachableStep(s, OfNotify(Unlink(n)));
    ReachableAfter(u, later);
    NotificationIsStable(u, later, w);
    if After(u, later).waits[w].pc.Returned? && s.waits[w].owned {
      ReturnsZeroIffNotified(After(u, later), w);
    }
  }

  lemma SingleStep(s: State, e: Event)
    requires Enabled(s, e)
    ensures ValidRun(s, [e]) && After(s, [e]) == Apply(s, e)
  {
    var run := [e];
    assert run[0] == e && run[1..] == [];
    assert ValidRun(Apply(s, e), run[1..]);
    assert ValidRun(s, run);
  }

  lemma ReachableAfter(s: State, later: seq<Event>)
    requires Reachable(s) && ValidRun(s, later)
    ensures Reachable(After(s, later))
  {
    var run :| ValidRun(Init(), run) && After(Init(), run) == s;
    RunsConcatenate(Init(), run, later);
  }

  lemma ReachableStep(s: State, e: Event)
    requires Reachable(s) && Enabled(s, e)
    ensures Reachable(Apply(s, e))
  {
    var run :| ValidRun(Init(), run) && After(Init(), run) == s;
    SingleStep(s, e);
    RunsConcatenate(Init(), run, [e]);
  }

  /** A notifier remains what it was called as. */
  lemma {:induction false} NotifierIsStable(s: State, run: seq<Event>, n: NotifierId)
    requires ValidRun(s, run) && n in s.notifiers
    ensures n in After(s, run).notifiers && After(s, run).notifiers[n].broadcast == s.notifiers[n].broadcast
    decreases |run|
  {
    if run != [] {
      NotifierIsStable(Apply(s, run[0]), run[1..], n);
    }
  }

  /** What a call records about itself. */
  lemma CallsRecordThemselves(s: State, w: WaitId, t: Thread, n: NotifierId, broadcast: bool)
    ensures WaitEnabled(s, Enter(w, t)) ==>
      var u := WaitApply(s, Enter(w, t));
      w in u.waits && u.waits[w].thread == t && (u.waits[w].owned <==> s.user == Some(t)) && u.user == s.user
    ensures NotifyEnabled(s, Notify(n, broadcast)) ==>
      var u := NotifyApply(s, Notify(n, broadcast)); n in u.notifiers && u.notifiers[n].broadcast == broadcast
  {
  }

  // ----- The user mutex

  /** The thread gives up the user mutex in this step. */
  predicate GivesUp(s: State, e: Event, t: Thread) {
    || e == UnlockUser(t)
    || (e.OfWait? && e.wait.ReleaseUser? && e.wait.w in s.waits && s.waits[e.wait.w].thread == t)
  }

  /** The user mutex is taken by LockUser and at the end of a wait, given up by
      UnlockUser and at the start of a wait, and untouched by everything else. */
  lemma MutexChangesHands(s: State, e: Event, t: Thread)
    requires Enabled(s, e)
    ensures s.user == Some(t) ==> Apply(s, e).user == if GivesUp(s, e, t) then None else Some(t)
    ensures s.user != Some(t) && Apply(s, e).user == Some(t) ==>
      s.user == None && (e == LockUser(t) || (e.OfWait? && e.wait.Relock? && s.waits[e.wait.w].thread == t))
    ensures e == LockUser(t) ==> Apply(s, e).user == Some(t)
  {
  }

  predicate NeverGivesUp(s: State, run: seq<Event>, t: Thread)
    requires ValidRun(s, run)
    decreases |run|
  {
    run == [] || (!GivesUp(s, run[0], t) && NeverGivesUp(Apply(s, run[0]), run[1..], t))
  }

  /** Whoever has it keeps it until then. */
  lemma {:induction false} MutexIsKept(s: State, run: seq<Event>, t: Thread)
    requires ValidRun(s, run) && s.user == Some(t) && NeverGivesUp(s, run, t)
    ensures After(s, run).user == Some(t)
    decreases |run|
  {
    if run != [] {
      MutexChangesHands(s, run[0], t);
      MutexIsKept(Apply(s, run[0]), run[1..], t);
    }
  }

  /** The step with which wait w returns. */
  predicate Returns(s: State, s': State, w: WaitId) {
    w in s.waits && w in s'.waits && !s.waits[w].pc.Returned? && s'.waits[w].pc.Returned?
  }

  /** The thread has given up the mutex for its wait and not taken it again. */
  predicate Away(r: Wait) { r.owned && !BeforeRelease(r.pc) && !r.pc.Returned? }

  predicate AwayAt(s: State, w: WaitId) { w in s.waits && Away(s.waits[w]) }

  predicate HasMutex(s: State, w: WaitId) { w in s.waits && s.user == Some(s.waits[w].thread) }

  ghost predicate AwayOk(s: State) { forall w :: AwayAt(s, w) ==> !HasMutex(s, w) }

  predicate IsStepOf(e: Event, w: WaitId) { e.OfWait? && e.wait.w == w }

  lemma OtherStepKeepsPc(s: State, e: Event, w: WaitId)
    requires Enabled(s, e) && w in s.waits && !IsStepOf(e, w)
    ensures w in Apply(s, e).waits && Apply(s, e).waits[w].pc == s.waits[w].pc
  {
  }

  lemma OwnStepKeepsAway(s: State, e: WaitEvent)
    requires Inv(s) && AwayOk(s) && WaitEnabled(s, e) && AwayAt(WaitApply(s, e), e.w)
    ensures !HasMutex(WaitApply(s, e), e.w)
  {
    if !e.Enter? {
      assert WaitOk(s, e.w);
      assert AwayAt(s, e.w) ==> !HasMutex(s, e.w);
    }
  }

  lemma OtherStepKeepsAway(s: State, e: Event, w: WaitId)
    requires OwnershipOk(s) && Enabled(s, e) && !IsStepOf(e, w) && AwayAt(s, w) && !HasMutex(s, w)
    ensures Apply(s, e).user != Some(s.waits[w].thread)
  {
    MutexChangesHands(s, e, s.waits[w].thread);
  }

  lemma WaitsStay(s: State, e: Event, w: WaitId)
    requires Enabled(s, e) && !IsStepOf(e, w) && w in Apply(s, e).waits
    ensures w in s.waits && Apply(s, e).waits[w].thread == s.waits[w].thread
    ensures Apply(s, e).waits[w].owned == s.waits[w].owned
  {
  }

  lemma AwayStaysAway(s: State, e: Event, w: WaitId)
    requires Inv(s) && AwayOk(s) && Enabled(s, e) && AwayAt(Apply(s, e), w)
    ensures !HasMutex(Apply(s, e), w)
  {
    if IsStepOf(e, w) {
      OwnStepKeepsAway(s, e.wait);
    } else {
      WaitsStay(s, e, w);
      OtherStepKeepsPc(s, e, w);
      assert AwayAt(s, w);
      OtherStepKeepsAway(s, e, w);
    }
  }

  lemma StepKeepsAway(s: State, e: Event)
    requires Inv(s) && AwayOk(s) && Enabled(s, e)
    ensures AwayOk(Apply(s, e))
  {
    var s' := Apply(s, e);
    forall w | AwayAt(s', w)
      ensures !HasMutex(s', w)
    {
      AwayStaysAway(s, e, w);
    }
  }

  lemma {:induction false} RunKeepsAway(s: State, run: seq<Event>)
    requires Inv(s) && AwayOk(s) && ValidRun(s, run)
    ensures AwayOk(After(s, run))
    decreases |run|
  {
    if run != [] {
      StepKeepsInv(s, run[0]);
      StepKeepsAway(s, run[0]);
      RunKeepsAway(Apply(s, run[0]), run[1..]);
    }
  }

  /** While a wait is under way its thread does not have the mutex. */
  lemma WaitReleasesMutex(s: State, w: WaitId)
    requires Reachable(s) && AwayAt(s, w)
    ensures s.user != Some(s.waits[w].thread)
  {
    var run :| ValidRun(Init(), run) && After(Init(), run) == s;
    RunKeepsAway(Init(), run);
  }

  // ----- The error of a wait

  /** A wait that has met this error, before and after the recheck. */
  predicate Carries(pc: WaitPc, error: int) {
    match pc
    case WaitFailed(e) => e == error
    case Rechecking(e) => e == error
    case Decided(st) => st == error || st == 0
    case Finishing(st) => st == error || st == 0
    case Relocking(st) => st == error || st == 0
    case Returned(st) => st == error || st == 0
    case _ => false
  }

  lemma {:induction false} ErrorIsCarried(s: State, run: seq<Event>, w: WaitId, error: int)
    requires ValidRun(s, run) && w in s.waits && Carries(s.waits[w].pc, error)
    ensures w in After(s, run).waits && Carries(After(s, run).waits[w].pc, error)
    decreases |run|
  {
    if run != [] {
      ErrorIsCarried(Apply(s, run[0]), run[1..], w, error);
    }
  }

  /** A wait whose semaphore could not be had, by a timeout or otherwise, returns 0 if
      it has been notified all the same, and else that very error. */
  lemma FailureIsReported(s: State, w: WaitId, error: int, later: seq<Event>)
    requires Reachable(s) && WaitEnabled(s, SemaphoreFail(w, error))
    requires ValidRun(WaitApply(s, SemaphoreFail(w, error)), later)
    ensures var t := After(WaitApply(s, SemaphoreFail(w, error)), later);
      w in t.waits && (t.waits[w].pc.Returned? ==> t.waits[w].pc.status == if t.waits[w].Notified() then 0 else error)
  {
    var u := WaitApply(s, SemaphoreFail(w, error));
    ReachableInv(s);
    assert WaitOk(s, w);
    ReachableStep(s, OfWait(SemaphoreFail(w, error)));
    ReachableAfter(u, later);
    ErrorIsCarried(u, later, w, error);
    NotificationIsStable(u, later, w);
    if After(u, later).waits[w].pc.Returned? {
      ReturnsZeroIffNotified(After(u, later), w);
    }
  }

  /** A wait that gets no semaphore to begin with fails at once and leaves everything
      else as it was. */
  lemma NoSemaphoreNoWait(s: State, w: WaitId)
    requires WaitEnabled(s, CreateSemaphore(w, false))
    ensures var u := WaitApply(s, CreateSemaphore(w, false));
      u == s.(waits := s.waits[w := s.waits[w].(pc := Returned(EAGAIN))])
  {
  }

  /** No notification is left on a semaphore that is about to be deleted. */
  lemma SemaphoreIsUsedUp(s: State, w: WaitId)
    requires Reachable(s) && WaitEnabled(s, DeleteSemaphore(w))
    ensures s.waits[w].semaphore == Live(0)
  {
    ReachableInv(s);
    assert WaitOk(s, w);
  }

  // ----- Progress

  /** What a wait does next if its calls succeed. */
  function NextOfWait(s: State, w: WaitId): WaitEvent
    requires w in s.waits && !s.waits[w].pc.Returned?
  {
    match s.waits[w].pc
    case Entered => CreateSemaphore(w, true)
    case Ready => Register(w)
    case Registered => ReleaseUser(w)
    case Waiting => SemaphoreGet(w)
    case UnlockFailed => BackOut(w)
    case WaitFailed(_) => LockForRecheck(w)
    case Rechecking(_) => Recheck(w)
    case Finishing(_) => DeleteSemaphore(w)
    case Relocking(_) => Relock(w)
    case _ => LeaveCondition(w)
  }

  /** A free user mutex can be locked by whoever is not waiting, its owner can unlock it
      unless it is waiting, and a wait for a semaphore can fail at any time. */
  lemma UsersMayAct(s: State, t: Thread, w: WaitId, error: int)
    ensures IdleThread(s, t) && s.user == None ==> Enabled(s, LockUser(t))
    ensures IdleThread(s, t) && s.user == Some(t) ==> Enabled(s, UnlockUser(t))
    ensures IdleThread(s, t) && w !in s.waits ==> WaitEnabled(s, Enter(w, t))
    ensures w in s.waits && s.waits[w].pc.Waiting? && error != 0 ==> WaitEnabled(s, SemaphoreFail(w, error))
    ensures w in s.waits && s.waits[w].pc.Entered? ==> WaitEnabled(s, CreateSemaphore(w, false))
  {
  }

  function NextOfNotifier(s: State, n: NotifierId): NotifyEvent
    requires n in s.notifiers && !s.notifiers[n].pc.Left?
  {
    match s.notifiers[n].pc
    case Calling => LockForNotify(n)
    case Looking => if s.list == [] then LeaveNotify(n) else Unlink(n)
    case Unlinked(_) => Post(n)
    case _ => LeaveNotify(n)
  }

  predicate LocksNext(pc: WaitPc) { pc.Ready? || pc.UnlockFailed? || pc.WaitFailed? }

  /** A wait can go on unless it waits for the lock of the condition, for the user
      mutex or to be notified; a notification that has been posted ends the last. */
  lemma WaitsGoOn(s: State, w: WaitId)
    requires Reachable(s) && w in s.waits && !s.waits[w].pc.Returned?
    ensures WaitEnabled(s, NextOfWait(s, w)) <==>
      match s.waits[w].pc
      case Waiting => s.waits[w].Notified() && !PostPending(s, w)
      case Relocking(_) => s.user == None
      case pc => LocksNext(pc) ==> s.condition == Nobody
  {
    ReachableInv(s);
    assert WaitOk(s, w);
  }

  lemma NotifiersGoOn(s: State, n: NotifierId)
    requires Reachable(s) && n in s.notifiers && !s.notifiers[n].pc.Left?
    ensures NotifyEnabled(s, NextOfNotifier(s, n)) <==> (s.notifiers[n].pc.Calling? ==> s.condition == Nobody)
  {
    ReachableInv(s);
    if s.notifiers[n].pc.Unlinked? {
      PostsHitLiveSemaphores(s, n);
    }
  }

  /** Whoever holds the lock of the condition can go on. */
  lemma HolderGoesOn(s: State)
    requires Reachable(s)
    ensures match s.condition
      case Nobody => true
      case ByWait(w) => w in s.waits && !s.waits[w].pc.Returned? && WaitEnabled(s, NextOfWait(s, w))
      case ByNotifier(n) => n in s.notifiers && !s.notifiers[n].pc.Left? && NotifyEnabled(s, NextOfNotifier(s, n))
  {
    ReachableInv(s);
    if s.condition.ByWait? {
      WaitsGoOn(s, s.condition.w);
    } else if s.condition.ByNotifier? {
      NotifiersGoOn(s, s.condition.n);
    }
  }

  function Phase(pc: WaitPc): nat {
    match pc
    case Entered => 0
    case Ready => 1
    case Registered => 2
    case Unlocked(_) => 3
    case Waiting => 4
    case UnlockFailed => 4
    case WaitFailed(_) => 5
    case BackedOut => 5
    case Rechecking(_) => 6
    case Decided(_) => 7
    case Finishing(_) => 8
    case Relocking(_) => 9
    case Returned(_) => 10
  }

  lemma OwnStepAdvances(s: State, e: WaitEvent)
    requires WaitEnabled(s, e) && !e.Enter?
    ensures e.w in WaitApply(s, e).waits && Phase(WaitApply(s, e).waits[e.w].pc) > Phase(s.waits[e.w].pc)
  {
  }

  /** A wait makes at most ten steps: each of its own takes it further, and nobody
      else's moves it. */
  lemma WaitStepsAdvance(s: State, e: Event, w: WaitId)
    requires Enabled(s, e) && w in s.waits
    ensures w in Apply(s, e).waits
    ensures if IsStepOf(e, w) then Phase(Apply(s, e).waits[w].pc) > Phase(s.waits[w].pc)
            else Apply(s, e).waits[w].pc == s.waits[w].pc
  {
    if IsStepOf(e, w) {
      OwnStepAdvances(s, e.wait);
    } else {
      OtherStepKeepsPc(s, e, w);
    }
  }

  function NotifierPhase(pc: NotifierPc): nat {
    match pc
    case Calling => 3
    case Looking => 2
    case Unlinked(_) => 2
    case Satisfied => 1
    case Left => 0
  }

  /** Waiters still to be woken, counted twice, and a post that is due. */
  function Work(s: State, pc: NotifierPc): nat { 2 * |s.list| + if pc.Unlinked? then 1 else 0 }

  /** So does a notifier, whose loop shortens the list. */
  lemma NotifierStepsAdvance(s: State, e: NotifyEvent, n: NotifierId)
    requires NotifyEnabled(s, e) && !e.Notify? && e.n == n
    ensures var s' := NotifyApply(s, e);
      && n in s'.notifiers && var p, q := s.notifiers[n].pc, s'.notifiers[n].pc;
         && NotifierPhase(q) <= NotifierPhase(p)
         && (NotifierPhase(q) == NotifierPhase(p) ==> Work(s', q) < Work(s, p))
  {
  }

  lemma OwnedReturn(s: State, e: WaitEvent)
    requires Inv(s) && WaitEnabled(s, e) && !e.Enter? && s.waits[e.w].owned && WaitApply(s, e).waits[e.w].pc.Returned?
    ensures WaitApply(s, e).user == Some(s.waits[e.w].thread)
  {
    assert WaitOk(s, e.w);
  }

  /** A wait by a thread that owned its mutex returns to it with the mutex; if it
      failed for want of a semaphore, the thread still has it. */
  lemma WaitReturnsWithMutex(s: State, e: Event, w: WaitId)
    requires Reachable(s) && Enabled(s, e) && Returns(s, Apply(s, e), w) && s.waits[w].owned
    ensures Apply(s, e).user == Some(s.waits[w].thread)
  {
    ReachableInv(s);
    WaitStepsAdvance(s, e, w);
    OwnedReturn(s, e.wait);
  }

  /** The failed-unlock path can consume a notification: thread 1 waits without
      owning the mutex, is notified after its failed unlock, and returns EPERM. */
  lemma SwallowedSignal()
    ensures exists s :: Reachable(s) && 0 in s.waits && s.waits[0].Notified() && s.waits[0].pc == Returned(EPERM)
  {
    var s := UnownedParked();
    var t := UnownedNotified(s);
    WithoutMembers(t.list, 0);
    ReachableStep(t, OfWait(BackOut(0)));
    var u := WaitApply(t, BackOut(0));
    ReachableStep(u, OfWait(LeaveCondition(0)));
    var v := WaitApply(u, LeaveCondition(0));
    assert v.waits[0].Notified() && v.waits[0].pc == Returned(EPERM);
  }

  lemma UnownedReady() returns (s: State)
    ensures Reachable(s)
    ensures s == State(None, Nobody, [], map[0 := Wait(1, false, Ready, Live(0), None, 0)], map[], 0)
  {
    s := Init();
    assert ValidRun(s, []) && After(s, []) == s;
    ReachableStep(s, OfWait(Enter(0, 1)));
    s := WaitApply(s, Enter(0, 1));
    ReachableStep(s, OfWait(CreateSemaphore(0, true)));
    s := WaitApply(s, CreateSemaphore(0, true));
  }

  lemma UnownedParked() returns (s: State)
    ensures Reachable(s)
    ensures s == State(None, Nobody, [0], map[0 := Wait(1, false, UnlockFailed, Live(0), None, 0)], map[], 1)
  {
    s := UnownedReady();
    ReachableStep(s, OfWait(Register(0)));
    s := WaitApply(s, Register(0));
    ReachableStep(s, OfWait(ReleaseUser(0)));
    s := WaitApply(s, ReleaseUser(0));
    ReachableStep(s, OfWait(LeaveCondition(0)));
    s := WaitApply(s, LeaveCondition(0));
  }

  lemma UnownedNotified(before: State) returns (s: State)
    requires Reachable(before)
    requires before == State(None, Nobody, [0], map[0 := Wait(1, false, UnlockFailed, Live(0), None, 0)], map[], 1)
    ensures Reachable(s) && s.condition == Nobody && s.list == [] && 0 in s.waits
    ensures s.waits[0] == Wait(1, false, UnlockFailed, Live(1), Some(0), 0)
  {
    s := before;
    ReachableStep(s, OfNotify(Notify(0, false)));
    s := NotifyApply(s, Notify(0, false));
    ReachableStep(s, OfNotify(LockForNotify(0)));
    s := NotifyApply(s, LockForNotify(0));
    ReachableStep(s, OfNotify(Unlink(0)));
    s := NotifyApply(s, Unlink(0));
    ReachableStep(s, OfNotify(Post(0)));
    s := NotifyApply(s, Post(0));
    ReachableStep(s, OfNotify(LeaveNotify(0)));
    s := NotifyApply(s, LeaveNotify(0));
  }
}
