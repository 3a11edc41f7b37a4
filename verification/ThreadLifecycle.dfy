/**
 The create / finish / join / detach / reaper protocol as a step system.

 Each step is one ThreadX call, or one critical section of the registry mutex,
 together with the local code up to the next call.  A control block carries the
 fields of ThreadControl, the position of the creator, of the thread itself and
 of the join or detach being made on its handle, and as history whether the
 completion has been taken and how far the cleanup has come.  A handle whose join
 failed is still joinable and may be claimed again.
 */
module ThreadLifecycle {
  import opened Fifo
  import opened Wrappers

  type Cid = nat                       // a control block

  const EAGAIN := 11
  const EINVAL := 22
  const QUEUE_DEPTH := 16
  const ID_LIMIT := 0x1_0000_0000      // ULONG values

  datatype Creator =
    | Allocated                        // block, stack, mutex and semaphore exist
    | Registered
    | Created                          // tx_thread_create succeeded
    | Published                        // the handle was returned
    | Failing                          // tx_thread_create failed
    | Withdrawn                        // unregistered again
    | Disposed                         // freed by the creator

  datatype Worker =
    | NotStarted
    | Starting                         // about to look itself up
    | Running
    | Flagged(enqueue: bool)           // holds the lifecycle mutex, finished is set
    | Unlocked(enqueue: bool)          // about to post completion
    | Posted(enqueue: bool)            // about to enqueue or return
    | Sent                             // enqueued, about to return
    | Completed(enqueue: bool)         // TX_COMPLETED

  datatype Claim =
    | Unclaimed
    | JoinWait                         // waiting for completion
    | JoinAborted                      // returned EINVAL
    | JoinTaken                        // about to create the acknowledgement
    | JoinStarved                      // returned EAGAIN
    | JoinReady                        // about to lock
    | JoinRefused                      // holds the mutex, will return EINVAL
    | JoinMarked                       // holds the mutex, cleanup requested
    | JoinSend                         // about to enqueue
    | JoinAwait                        // waiting for the acknowledgement
    | JoinClosing                      // about to delete the acknowledgement
    | JoinDone(status: int)
    | DetachWait                       // about to lock
    | DetachRefused                    // holds the mutex, will return EINVAL
    | DetachMarked(enqueue: bool)      // holds the mutex
    | DetachSend                       // about to enqueue
    | DetachDone(status: int, enqueue: bool)

  datatype Ack = NoAck | AckLive(count: nat) | AckDeleted

  datatype Owner = Free | ByWorker | ByClaim

  /** History: how far the cleanup of a block has come. */
  datatype Stage = Quiet | Sending | InQueue | Received | Found | Dead | ThreadGone | SyncGone | Unlisted | Freed

  datatype Block = Block(
    id: nat, creator: Creator, worker: Worker, claim: Claim,
    lock: Owner, detached: bool, finished: bool, queued: bool,
    completion: nat, taken: bool, ackSet: bool, ack: Ack,
    listed: bool, stage: Stage, sends: nat, frees: nat, acked: bool)

  /** A cleanup message is the registry id; `about` is history and never read. */
  datatype Message = Message(id: nat, about: Cid)

  datatype Reaper =
    | Idle
    | Got(message: Message)
    | Holding(c: Cid)                  // control found, polling the thread state
    | Deleting(c: Cid, ack: bool)      // cleanup_ack and stack have been saved
    | Acking(c: Cid, ack: bool)        // memory released
    | Fatal

  datatype State = State(
    blocks: map<Cid, Block>, registry: seq<Cid>, queue: seq<Message>, reaper: Reaper,
    nextId: nat, registered: nat, lookupFailed: bool)

  function Init(): State { State(map[], [], [], Idle, 1, 0, false) }

  /** find_thread: the first registered block with this id. */
  function Lookup(registry: seq<Cid>, blocks: map<Cid, Block>, id: nat): Option<Cid> {
    if registry == [] then None
    else if registry[0] in blocks && blocks[registry[0]].id == id then Some(registry[0])
    else Lookup(registry[1..], blocks, id)
  }

  function NextId(id: nat): nat {
    if (id + 1) % ID_LIMIT == 0 then 1 else (id + 1) % ID_LIMIT
  }

  /** Steps of the creator, of the thread and of whoever claims its handle. */
  datatype Own =
    | Register(c: Cid)
    | CreateThread(c: Cid, ok: bool)
    | Publish(c: Cid)
    | Withdraw(c: Cid)
    | Dispose(c: Cid)
    | WorkerFind(c: Cid)
    | WorkerLock(c: Cid)
    | WorkerUnlock(c: Cid)
    | WorkerPost(c: Cid)
    | WorkerSend(c: Cid)
    | WorkerExit(c: Cid)
    | JoinStart(c: Cid)
    | JoinAbort(c: Cid)
    | JoinTake(c: Cid)
    | JoinCreateAck(c: Cid, ok: bool)
    | JoinLock(c: Cid)
    | JoinUnlock(c: Cid)
    | JoinEnqueue(c: Cid)
    | JoinGetAck(c: Cid)
    | JoinDeleteAck(c: Cid)
    | DetachStart(c: Cid)
    | DetachLock(c: Cid)
    | DetachUnlock(c: Cid)
    | DetachEnqueue(c: Cid)

  /** Steps of the reaper. */
  datatype Reap =
    | ReaperReceive
    | ReaperFind
    | ReaperPoll
    | ReaperDeleteThread
    | ReaperDeleteSync
    | ReaperUnregister
    | ReaperFree
    | ReaperAck

  datatype Event = Allocate(c: Cid) | ByOwner(own: Own) | ByReaper(reap: Reap)

  /** Registry ids are taken to be distinct among registered blocks. */
  predicate FreshId(s: State) {
    forall c :: c in s.registry && c in s.blocks ==> s.blocks[c].id != s.nextId
  }

  /** The handle is joinable: unclaimed, or its last join has failed. */
  predicate Claimable(c: Claim) { c.Unclaimed? || c.JoinAborted? || c.JoinStarved? }

  predicate BlockEnabled(s: State, e: Own, b: Block) {
    match e
    case Register(_) => b.creator.Allocated? && FreshId(s)
    case CreateThread(_, _) => b.creator.Registered?
    case Publish(_) => b.creator.Created?
    case Withdraw(_) => b.creator.Failing?
    case Dispose(_) => b.creator.Withdrawn?
    case WorkerFind(_) => b.worker.Starting?
    case WorkerLock(_) => b.worker.Running? && b.lock.Free?
    case WorkerUnlock(_) => b.worker.Flagged?
    case WorkerPost(_) => b.worker.Unlocked?
    case WorkerSend(_) => b.worker == Posted(true) && |s.queue| < QUEUE_DEPTH
    case WorkerExit(_) => b.worker == Posted(false) || b.worker.Sent?
    case JoinStart(_) => b.creator.Published? && Claimable(b.claim)
    case JoinAbort(_) => b.claim.JoinWait?
    case JoinTake(_) => b.claim.JoinWait? && b.completion > 0
    case JoinCreateAck(_, _) => b.claim.JoinTaken?
    case JoinLock(_) => b.claim.JoinReady? && b.lock.Free?
    case JoinUnlock(_) => b.claim.JoinMarked? || b.claim.JoinRefused?
    case JoinEnqueue(_) => b.claim.JoinSend? && |s.queue| < QUEUE_DEPTH
    case JoinGetAck(_) => b.claim.JoinAwait? && b.ack.AckLive? && b.ack.count > 0
    case JoinDeleteAck(_) => b.claim.JoinClosing?
    case DetachStart(_) => b.creator.Published? && Claimable(b.claim)
    case DetachLock(_) => b.claim.DetachWait? && b.lock.Free?
    case DetachUnlock(_) => b.claim.DetachMarked? || b.claim.DetachRefused?
    case DetachEnqueue(_) => b.claim.DetachSend? && |s.queue| < QUEUE_DEPTH
  }

  predicate Enabled(s: State, e: Event) {
    match e
    case Allocate(c) => c !in s.blocks
    case ByOwner(o) => OwnEnabled(s, o)
    case ByReaper(r) => ReaperEnabled(s, r)
  }

  predicate OwnEnabled(s: State, e: Own) { e.c in s.blocks && BlockEnabled(s, e, s.blocks[e.c]) }

  predicate ReaperEnabled(s: State, e: Reap) {
    match e
    case ReaperReceive => s.reaper.Idle? && s.queue != []
    case ReaperFind => s.reaper.Got?
    case ReaperPoll => s.reaper.Holding? && s.reaper.c in s.blocks && s.blocks[s.reaper.c].worker.Completed?
    case ReaperDeleteThread => ReaperAt(s, Dead)
    case ReaperDeleteSync => ReaperAt(s, ThreadGone)
    case ReaperUnregister => ReaperAt(s, SyncGone)
    case ReaperFree => ReaperAt(s, Unlisted)
    case ReaperAck => s.reaper.Acking? && s.reaper.c in s.blocks
  }

  predicate ReaperAt(s: State, stage: Stage) {
    s.reaper.Deleting? && s.reaper.c in s.blocks && s.blocks[s.reaper.c].stage == stage
  }

  const NEW_BLOCK := Block(0, Allocated, NotStarted, Unclaimed, Free, false, false, false, 0, false, false, NoAck,
                          false, Quiet, 0, 0, false)

  /** The part of a step that changes its own block. */
  function BlockStep(s: State, e: Own, b: Block): Block
    requires BlockEnabled(s, e, b)
  {
    match e
    case Register(_) => b.(creator := Registered, id := s.nextId, listed := true)
    case CreateThread(_, ok) => if ok then b.(creator := Created, worker := Starting) else b.(creator := Failing)
    case Publish(_) => b.(creator := Published)
    case Withdraw(_) => b.(creator := Withdrawn, listed := false)
    case Dispose(_) => b.(creator := Disposed, stage := Freed, frees := b.frees + 1)
    case WorkerFind(_) => b.(worker := Running)
    case WorkerLock(_) =>
      var enqueue := b.detached && !b.queued;
      b.(worker := Flagged(enqueue), lock := ByWorker, finished := true, queued := b.queued || enqueue,
         stage := if enqueue then Sending else b.stage)
    case WorkerUnlock(_) => b.(worker := Unlocked(b.worker.enqueue), lock := Free)
    case WorkerPost(_) => b.(worker := Posted(b.worker.enqueue), completion := b.completion + 1)
    case WorkerSend(_) => b.(worker := Sent, stage := InQueue, sends := b.sends + 1)
    case WorkerExit(_) => b.(worker := Completed(b.worker.Sent?))
    case JoinStart(_) => b.(claim := JoinWait)
    case JoinAbort(_) => b.(claim := JoinAborted)
    case JoinTake(_) => b.(claim := JoinTaken, completion := b.completion - 1, taken := true)
    case JoinCreateAck(_, ok) => if ok then b.(claim := JoinReady, ack := AckLive(0)) else b.(claim := JoinStarved)
    case JoinLock(_) =>
      if b.detached || b.queued then b.(claim := JoinRefused, lock := ByClaim)
      else b.(claim := JoinMarked, lock := ByClaim, ackSet := true, queued := true, stage := Sending)
    case JoinUnlock(_) =>
      if b.claim.JoinRefused? then b.(claim := JoinDone(EINVAL), lock := Free, ack := AckDeleted)
      else b.(claim := JoinSend, lock := Free)
    case JoinEnqueue(_) => b.(claim := JoinAwait, stage := InQueue, sends := b.sends + 1)
    case JoinGetAck(_) => b.(claim := JoinClosing, ack := AckLive(b.ack.count - 1))
    case JoinDeleteAck(_) => b.(claim := JoinDone(0), ack := AckDeleted)
    case DetachStart(_) => b.(claim := DetachWait)
    case DetachLock(_) =>
      if b.detached || b.queued then b.(claim := DetachRefused, lock := ByClaim)
      else b.(claim := DetachMarked(b.finished), lock := ByClaim, detached := true, queued := b.finished,
              stage := if b.finished then Sending else b.stage)
    case DetachUnlock(_) =>
      if b.claim.DetachRefused? then b.(claim := DetachDone(EINVAL, false), lock := Free)
      else if b.claim.enqueue then b.(claim := DetachSend, lock := Free)
      else b.(claim := DetachDone(0, false), lock := Free)
    case DetachEnqueue(_) => b.(claim := DetachDone(0, true), stage := InQueue, sends := b.sends + 1)
  }

  function SetStage(s: State, c: Cid, stage: Stage): State
    requires c in s.blocks
  {
    s.(blocks := s.blocks[c := s.blocks[c].(stage := stage)])
  }

  predicate Sends(e: Own) { e.WorkerSend? || e.JoinEnqueue? || e.DetachEnqueue? }

  function OwnStep(s: State, e: Own): State
    requires OwnEnabled(s, e)
  {
    var b := s.blocks[e.c];
    State(s.blocks[e.c := BlockStep(s, e, b)],
          if e.Register? then [e.c] + s.registry else if e.Withdraw? then Without(s.registry, e.c) else s.registry,
          if Sends(e) then s.queue + [Message(b.id, e.c)] else s.queue,
          s.reaper,
          if e.Register? then NextId(s.nextId) else s.nextId,
          if e.Register? then s.registered + 1 else s.registered,
          s.lookupFailed || (e.WorkerFind? && Lookup(s.registry, s.blocks, b.id) != Some(e.c)))
  }

  function MarkReceived(s: State, c: Cid): map<Cid, Block> {
    if c in s.blocks then s.blocks[c := s.blocks[c].(stage := Received)] else s.blocks
  }

  function ReaperStep(s: State, e: Reap): State
    requires ReaperEnabled(s, e)
  {
    match e
    case ReaperReceive =>
      s.(queue := s.queue[1..], reaper := Got(s.queue[0]), blocks := MarkReceived(s, s.queue[0].about))
    case ReaperFind =>
      (match Lookup(s.registry, s.blocks, s.reaper.message.id)
       case None => s.(reaper := Fatal, lookupFailed := true)
       case Some(c) => if c in s.blocks then SetStage(s, c, Found).(reaper := Holding(c)) else s.(reaper := Fatal))
    case ReaperPoll => SetStage(s, s.reaper.c, Dead).(reaper := Deleting(s.reaper.c, s.blocks[s.reaper.c].ackSet))
    case ReaperDeleteThread => SetStage(s, s.reaper.c, ThreadGone)
    case ReaperDeleteSync => SetStage(s, s.reaper.c, SyncGone)
    case ReaperUnregister =>
      var c := s.reaper.c;
      s.(blocks := s.blocks[c := s.blocks[c].(stage := Unlisted, listed := false)], registry := Without(s.registry, c))
    case ReaperFree =>
      var c := s.reaper.c;
      s.(blocks := s.blocks[c := s.blocks[c].(stage := Freed, frees := s.blocks[c].frees + 1)],
         reaper := Acking(c, s.reaper.ack))
    case ReaperAck =>
      var b := s.blocks[s.reaper.c];
      var b' := if s.reaper.ack then b.(acked := true, ack := if b.ack.AckLive? then AckLive(b.ack.count + 1)
                                                                  else b.ack)
                else b;
      s.(blocks := s.blocks[s.reaper.c := b'], reaper := Idle)
  }

  function Apply(s: State, e: Event): State
    requires Enabled(s, e)
  {
    match e
    case Allocate(c) => s.(blocks := s.blocks[c := NEW_BLOCK])
    case ByOwner(o) => OwnStep(s, o)
    case ByReaper(r) => ReaperStep(s, r)
  }

  // ----- Invariant

  predicate Finished(w: Worker) {
    w.Flagged? || w.Unlocked? || w.Posted? || w.Sent? || w.Completed?
  }

  predicate HasPosted(w: Worker) { w.Posted? || w.Sent? || w.Completed? }

  /** The thread itself took over the cleanup request. */
  predicate WorkerTakes(w: Worker) {
    w.Sent? || ((w.Flagged? || w.Unlocked? || w.Posted? || w.Completed?) && w.enqueue)
  }

  predicate WorkerSending(w: Worker) { (w.Flagged? || w.Unlocked? || w.Posted?) && w.enqueue }

  predicate JoinTook(c: Claim) {
    c.JoinTaken? || c.JoinStarved? || c.JoinReady? || JoinCommitted(c)
  }

  predicate JoinCommitted(c: Claim) {
    c.JoinMarked? || c.JoinSend? || c.JoinAwait? || c.JoinClosing? || c.JoinDone?
  }

  predicate HasDetached(c: Claim) { c.DetachMarked? || c.DetachSend? || c.DetachDone? }

  predicate ClaimTakes(c: Claim) {
    JoinCommitted(c) || c.DetachSend? || ((c.DetachMarked? || c.DetachDone?) && c.enqueue)
  }

  predicate ClaimSending(c: Claim) {
    c.JoinMarked? || c.JoinSend? || c.DetachSend? || (c.DetachMarked? && c.enqueue)
  }

  predicate ClaimLocks(c: Claim) { c.JoinMarked? || c.JoinRefused? || c.DetachMarked? || c.DetachRefused? }

  /** The reaper has seen the thread complete. */
  predicate AfterDeath(g: Stage) { g.Dead? || g.ThreadGone? || g.SyncGone? || g.Unlisted? || g.Freed? }

  predicate Unstarted(b: Block) {
    && b.worker.NotStarted? && b.claim.Unclaimed? && b.lock.Free? && !b.detached && !b.finished && !b.queued
    && b.completion == 0 && !b.taken && !b.ackSet && b.ack.NoAck? && b.sends == 0 && !b.acked
  }

  predicate FlagsOk(b: Block) {
    && b.finished == Finished(b.worker)
    && b.detached == HasDetached(b.claim)
    && b.queued == (WorkerTakes(b.worker) || ClaimTakes(b.claim))
    && !(WorkerTakes(b.worker) && ClaimTakes(b.claim))
    && (WorkerTakes(b.worker) ==> HasDetached(b.claim))
    && (ClaimTakes(b.claim) ==> b.finished)
    && (b.finished && b.detached ==> b.queued)
    && (b.lock.ByWorker? <==> b.worker.Flagged?)
    && (b.lock.ByClaim? <==> ClaimLocks(b.claim))
    && !b.claim.JoinRefused? && !b.claim.DetachRefused?
    && (b.claim.DetachMarked? ==> b.claim.enqueue == b.finished)
    && (b.claim.JoinDone? || b.claim.DetachDone? ==> b.claim.status == 0)
  }

  predicate SemaphoresOk(b: Block) {
    && (JoinTook(b.claim) ==> b.taken) && (b.taken ==> HasPosted(b.worker))
    && b.completion == (if HasPosted(b.worker) && !b.taken then 1 else 0)
    && b.ackSet == JoinCommitted(b.claim)
    && (b.acked ==> b.ackSet && b.stage.Freed?)
    && (b.claim.JoinReady? || b.claim.JoinMarked? || b.claim.JoinSend? ==> b.ack == AckLive(0) && !b.acked)
    && (b.claim.JoinAwait? ==> b.ack == AckLive(if b.acked then 1 else 0))
    && (b.claim.JoinClosing? ==> b.acked)
    && (b.claim.JoinDone? ==> b.acked && b.ack == AckDeleted)
  }

  predicate StageOk(b: Block) {
    && (b.stage.Quiet? <==> !b.queued)
    && (b.stage.Sending? <==> WorkerSending(b.worker) || ClaimSending(b.claim))
    && (AfterDeath(b.stage) ==> b.worker.Completed?)
    && b.listed == !(b.stage.Unlisted? || b.stage.Freed?)
    && b.sends == (if b.stage.Quiet? || b.stage.Sending? then 0 else 1)
  }

  predicate BlockOk(b: Block) {
    && b.frees == (if b.stage.Freed? then 1 else 0)
    && match b.creator
       case Allocated => Unstarted(b) && !b.listed && b.stage.Quiet?
       case Registered => Unstarted(b) && b.listed && b.stage.Quiet?
       case Failing => Unstarted(b) && b.listed && b.stage.Quiet?
       case Withdrawn => Unstarted(b) && !b.listed && b.stage.Quiet?
       case Disposed => Unstarted(b) && !b.listed && b.stage.Freed?
       case _ =>
         && !b.worker.NotStarted? && (b.creator.Created? ==> b.claim.Unclaimed?)
         && FlagsOk(b) && SemaphoresOk(b) && StageOk(b)
  }

  ghost predicate RegistryOk(s: State) {
    && Distinct(s.registry)
    && (forall c :: c in s.registry ==> c in s.blocks)
    && (forall c :: c in s.blocks ==> (s.blocks[c].listed <==> c in s.registry))
    && (forall c, d :: c in s.registry && d in s.registry && s.blocks[c].id == s.blocks[d].id ==> c == d)
  }

  /** Until the counter wraps, ids count the registrations. */
  ghost predicate IdsOk(s: State) {
    s.registered < ID_LIMIT - 1 ==>
      s.nextId == s.registered + 1 && forall c :: c in s.registry && c in s.blocks ==> s.blocks[c].id < s.nextId
  }

  ghost predicate MessageOk(s: State, m: Message) {
    m.about in s.blocks && s.blocks[m.about].id == m.id
  }

  ghost predicate QueueOk(s: State) {
    && |s.queue| <= QUEUE_DEPTH
    && (forall i :: 0 <= i < |s.queue| ==> MessageOk(s, s.queue[i]) && s.blocks[s.queue[i].about].stage.InQueue?)
    && (forall i, j :: 0 <= i < j < |s.queue| ==> s.queue[i].about != s.queue[j].about)
    && (forall c :: c in s.blocks && s.blocks[c].stage.InQueue? ==> Message(s.blocks[c].id, c) in s.queue)
  }

  /** The reaper works on exactly the block whose stage says so. */
  ghost predicate ReaperOk(s: State) {
    && !s.reaper.Fatal?
    && (forall c :: c in s.blocks && (s.blocks[c].stage.Received? || InHand(s.blocks[c].stage)) ==> Serving(s, c))
    && (s.reaper.Got? ==> MessageOk(s, s.reaper.message) && s.blocks[s.reaper.message.about].stage.Received?)
    && (s.reaper.Holding? ==> s.reaper.c in s.blocks && s.blocks[s.reaper.c].stage.Found?)
    && (s.reaper.Deleting? ==>
          && s.reaper.c in s.blocks && InHand(s.blocks[s.reaper.c].stage) && !s.blocks[s.reaper.c].stage.Found?
          && s.reaper.ack == s.blocks[s.reaper.c].ackSet)
    && (s.reaper.Acking? ==>
          && s.reaper.c in s.blocks && s.blocks[s.reaper.c].stage.Freed? && !s.blocks[s.reaper.c].creator.Disposed?
          && s.reaper.ack == s.blocks[s.reaper.c].ackSet && !s.blocks[s.reaper.c].acked)
  }

  predicate InHand(g: Stage) { g.Found? || g.Dead? || g.ThreadGone? || g.SyncGone? || g.Unlisted? }

  predicate Serving(s: State, c: Cid) {
    match s.reaper
    case Got(m) => m.about == c
    case Holding(d) => d == c
    case Deleting(d, _) => d == c
    case _ => false
  }

  ghost predicate BlocksOk(s: State) {
    forall c :: c in s.blocks ==> BlockOk(s.blocks[c])
  }

  ghost predicate Inv(s: State) {
    && !s.lookupFailed
    && BlocksOk(s)
    && RegistryOk(s) && IdsOk(s) && QueueOk(s) && ReaperOk(s)
  }

  // ----- A step of the creator, the thread or the claimer

  /** What such a step may do to the fields the other parties look at. */
  predicate Compatible(e: Own, b: Block, b': Block) {
    && b'.listed == (if e.Register? then true else if e.Withdraw? then false else b.listed)
    && (!e.Register? ==> b'.id == b.id)
    && (e.Register? ==> !b.listed && b.stage.Quiet?)
    && (Sends(e) ==> b.stage.Sending? && b'.stage.InQueue?)
    && (!Sends(e) ==> b'.stage == b.stage || (b.stage.Quiet? && (b'.stage.Sending? || b'.stage.Freed?)))
    && (InHand(b.stage) || b.stage.Freed? ==> b'.stage == b.stage && b'.ackSet == b.ackSet)
    && b'.acked == b.acked
    && (b'.creator.Disposed? ==> b.creator.Disposed? || b.stage.Quiet?)
  }

  lemma CreatorStep(s: State, e: Own, b: Block)
    requires BlockOk(b) && BlockEnabled(s, e, b)
    requires e.Register? || e.CreateThread? || e.Publish? || e.Withdraw? || e.Dispose?
    ensures BlockOk(BlockStep(s, e, b)) && Compatible(e, b, BlockStep(s, e, b))
  {
  }

  lemma WorkerStep(s: State, e: Own, b: Block)
    requires BlockOk(b) && BlockEnabled(s, e, b)
    requires e.WorkerFind? || e.WorkerLock? || e.WorkerUnlock? || e.WorkerPost? || e.WorkerSend? || e.WorkerExit?
    ensures BlockOk(BlockStep(s, e, b)) && Compatible(e, b, BlockStep(s, e, b))
  {
  }

  lemma JoinStep(s: State, e: Own, b: Block)
    requires BlockOk(b) && BlockEnabled(s, e, b)
    requires e.JoinStart? || e.JoinAbort? || e.JoinTake? || e.JoinCreateAck?
    ensures BlockOk(BlockStep(s, e, b)) && Compatible(e, b, BlockStep(s, e, b))
  {
  }

  lemma JoinLockStep(s: State, e: Own, b: Block)
    requires BlockOk(b) && BlockEnabled(s, e, b) && (e.JoinLock? || e.JoinUnlock?)
    ensures BlockOk(BlockStep(s, e, b)) && Compatible(e, b, BlockStep(s, e, b))
  {
  }

  lemma JoinEndStep(s: State, e: Own, b: Block)
    requires BlockOk(b) && BlockEnabled(s, e, b)
    requires e.JoinEnqueue? || e.JoinGetAck? || e.JoinDeleteAck?
    ensures BlockOk(BlockStep(s, e, b)) && Compatible(e, b, BlockStep(s, e, b))
  {
  }

  lemma DetachStep(s: State, e: Own, b: Block)
    requires BlockOk(b) && BlockEnabled(s, e, b) && (e.DetachStart? || e.DetachLock?)
    ensures BlockOk(BlockStep(s, e, b)) && Compatible(e, b, BlockStep(s, e, b))
  {
  }

  lemma DetachEndStep(s: State, e: Own, b: Block)
    requires BlockOk(b) && BlockEnabled(s, e, b) && (e.DetachUnlock? || e.DetachEnqueue?)
    ensures BlockOk(BlockStep(s, e, b)) && Compatible(e, b, BlockStep(s, e, b))
  {
  }

  lemma BlockStepOk(s: State, e: Own, b: Block)
    requires BlockOk(b) && BlockEnabled(s, e, b)
    ensures BlockOk(BlockStep(s, e, b)) && Compatible(e, b, BlockStep(s, e, b))
  {
    if e.Register? || e.CreateThread? || e.Publish? || e.Withdraw? || e.Dispose? {
      CreatorStep(s, e, b);
    } else if e.WorkerFind? || e.WorkerLock? || e.WorkerUnlock? || e.WorkerPost? || e.WorkerSend? || e.WorkerExit? {
      WorkerStep(s, e, b);
    } else if e.JoinStart? || e.JoinAbort? || e.JoinTake? || e.JoinCreateAck? {
      JoinStep(s, e, b);
    } else if e.JoinLock? || e.JoinUnlock? {
      JoinLockStep(s, e, b);
    } else if e.JoinEnqueue? || e.JoinGetAck? || e.JoinDeleteAck? {
      JoinEndStep(s, e, b);
    } else if e.DetachStart? || e.DetachLock? {
      DetachStep(s, e, b);
    } else {
      DetachEndStep(s, e, b);
    }
  }

  lemma {:induction false} LookupFinds(registry: seq<Cid>, blocks: map<Cid, Block>, c: Cid)
    requires c in registry && c in blocks
    requires forall d :: d in registry && d in blocks && blocks[d].id == blocks[c].id ==> d == c
    ensures Lookup(registry, blocks, blocks[c].id) == Some(c)
  {
    if registry[0] != c {
      LookupFinds(registry[1..], blocks, c);
    }
  }

  lemma WithoutKeepsDistinct(t: seq<Cid>, c: Cid)
    requires Distinct(t)
    ensures Distinct(Without(t, c))
  {
    WithoutMembers(t, c);
    if c in t {
      var k :| 0 <= k < |t| && t[k] == c;
      WithoutAt(t, k);
    }
  }

  /** s' is s with block c replaced and the queue extended by what e sends. */
  ghost predicate OwnChange(s: State, e: Own, s': State, c: Cid) {
    && c in s.blocks && s'.blocks.Keys == s.blocks.Keys
    && (forall d :: d in s.blocks && d != c ==> s'.blocks[d] == s.blocks[d])
    && Compatible(e, s.blocks[c], s'.blocks[c])
    && s'.reaper == s.reaper
    && s'.queue == (if Sends(e) then s.queue + [Message(s.blocks[c].id, c)] else s.queue)
    && |s'.queue| <= QUEUE_DEPTH
    && s'.registry == (if e.Register? then [c] + s.registry
                       else if e.Withdraw? then Without(s.registry, c) else s.registry)
    && (e.Register? ==> s'.blocks[c].id == s.nextId && FreshId(s))
  }

  lemma OwnKeepsRegistry(s: State, e: Own, s': State, c: Cid)
    requires OwnChange(s, e, s', c) && RegistryOk(s)
    ensures RegistryOk(s')
  {
    WithoutMembers(s.registry, c);
    WithoutKeepsDistinct(s.registry, c);
  }

  /** Everything but block c is as it was. */
  predicate OnlyBlock(s: State, s': State, c: Cid) {
    && c in s.blocks && s'.blocks.Keys == s.blocks.Keys
    && forall d :: d in s.blocks && d != c ==> s'.blocks[d] == s.blocks[d]
  }

  lemma FrameQueue(s: State, s': State, c: Cid)
    requires QueueOk(s) && OnlyBlock(s, s', c) && s'.queue == s.queue
    requires s'.blocks[c].stage.InQueue? == s.blocks[c].stage.InQueue?
    requires s.blocks[c].stage.InQueue? ==> s'.blocks[c].id == s.blocks[c].id
    ensures QueueOk(s')
  {
    forall d | d in s'.blocks && s'.blocks[d].stage.InQueue?
      ensures Message(s'.blocks[d].id, d) in s'.queue
    {
      assert s.blocks[d].stage.InQueue?;
    }
  }

  lemma PushingKeepsQueue(s: State, s': State, c: Cid)
    requires QueueOk(s) && OnlyBlock(s, s', c) && s'.queue == s.queue + [Message(s.blocks[c].id, c)] &&
      |s'.queue| <= QUEUE_DEPTH
    requires !s.blocks[c].stage.InQueue? && s'.blocks[c].stage.InQueue? && s'.blocks[c].id == s.blocks[c].id
    ensures QueueOk(s')
  {
    forall d | d in s'.blocks && s'.blocks[d].stage.InQueue?
      ensures Message(s'.blocks[d].id, d) in s'.queue
    {
      if d != c {
        assert s.blocks[d].stage.InQueue? && Message(s.blocks[d].id, d) in s.queue;
      } else {
        assert s'.queue[|s.queue|] == Message(s.blocks[c].id, c);
      }
    }
  }

  lemma OwnKeepsQueue(s: State, e: Own, s': State, c: Cid)
    requires OwnChange(s, e, s', c) && QueueOk(s)
    ensures QueueOk(s')
  {
    if Sends(e) {
      PushingKeepsQueue(s, s', c);
    } else {
      FrameQueue(s, s', c);
    }
  }

  predicate AtReaper(g: Stage) { g.Received? || InHand(g) || g.Freed? }

  /** The reaper cannot tell b from b'. */
  predicate SameForReaper(b: Block, b': Block) {
    && (b'.stage.Received? || InHand(b'.stage) ==> AtReaper(b.stage))
    && (AtReaper(b.stage) ==>
          && b'.stage == b.stage && b'.id == b.id && b'.acked == b.acked
          && (!b.stage.Received? ==> b'.ackSet == b.ackSet)
          && (b'.creator.Disposed? ==> b.creator.Disposed?))
  }

  lemma CompatibleForReaper(e: Own, b: Block, b': Block)
    requires Compatible(e, b, b')
    ensures SameForReaper(b, b')
  {
  }

  lemma ReaperFrame(s: State, s': State, c: Cid)
    requires ReaperOk(s) && s'.reaper == s.reaper && c in s.blocks && s'.blocks.Keys == s.blocks.Keys
    requires SameForReaper(s.blocks[c], s'.blocks[c])
    requires forall d :: d in s.blocks && d != c ==> s'.blocks[d] == s.blocks[d]
    ensures ReaperOk(s')
  {
  }

  lemma OwnKeepsReaper(s: State, e: Own, s': State, c: Cid)
    requires OwnChange(s, e, s', c) && ReaperOk(s)
    ensures ReaperOk(s')
  {
    CompatibleForReaper(e, s.blocks[c], s'.blocks[c]);
    ReaperFrame(s, s', c);
  }

  lemma OwnStepChanges(s: State, e: Own)
    requires OwnEnabled(s, e) && BlockOk(s.blocks[e.c]) && |s.queue| <= QUEUE_DEPTH
    ensures OwnChange(s, e, OwnStep(s, e), e.c) && BlockOk(OwnStep(s, e).blocks[e.c])
  {
    BlockStepOk(s, e, s.blocks[e.c]);
  }

  lemma OwnKeepsIds(s: State, e: Own)
    requires OwnEnabled(s, e) && RegistryOk(s) && IdsOk(s)
    requires OwnChange(s, e, OwnStep(s, e), e.c)
    ensures IdsOk(OwnStep(s, e))
  {
    WithoutMembers(s.registry, e.c);
  }

  lemma OwnLookupWorks(s: State, e: Own)
    requires OwnEnabled(s, e) && e.WorkerFind? && RegistryOk(s) && BlockOk(s.blocks[e.c])
    ensures Lookup(s.registry, s.blocks, s.blocks[e.c].id) == Some(e.c)
  {
    WorkerIsListed(s.blocks[e.c]);
    LookupFinds(s.registry, s.blocks, e.c);
  }

  lemma BlocksKept(s: State, s': State, c: Cid)
    requires BlocksOk(s) && c in s'.blocks && s'.blocks == s.blocks[c := s'.blocks[c]] && BlockOk(s'.blocks[c])
    ensures BlocksOk(s')
  {
  }

  lemma OwnStepKeepsInv(s: State, e: Own)
    requires Inv(s) && OwnEnabled(s, e)
    ensures Inv(OwnStep(s, e))
  {
    var c := e.c;
    var s' := OwnStep(s, e);
    OwnStepChanges(s, e);
    BlocksKept(s, s', c);
    OwnKeepsRegistry(s, e, s', c);
    OwnKeepsIds(s, e);
    OwnKeepsQueue(s, e, s', c);
    OwnKeepsReaper(s, e, s', c);
    if e.WorkerFind? {
      OwnLookupWorks(s, e);
    }
  }

  /** A thread that has not completed is still registered. */
  lemma WorkerIsListed(b: Block)
    requires BlockOk(b) && !b.worker.NotStarted? && !b.worker.Completed?
    ensures b.listed && b.stage != Freed && !AfterDeath(b.stage)
  {
  }

  // ----- Steps of the reaper

  /** The stages the reaper leads a block through. */
  predicate Advances(b: Block, b': Block) {
    match b.stage
    case InQueue => b' == b.(stage := Received)
    case Received => b' == b.(stage := Found)
    case Found => b.worker.Completed? && b' == b.(stage := Dead)
    case Dead => b' == b.(stage := ThreadGone)
    case ThreadGone => b' == b.(stage := SyncGone)
    case SyncGone => b' == b.(stage := Unlisted, listed := false)
    case Unlisted => b' == b.(stage := Freed, frees := b.frees + 1)
    case _ => false
  }

  lemma AdvanceKeepsBlock(b: Block, b': Block)
    requires BlockOk(b) && Advances(b, b')
    ensures BlockOk(b')
  {
  }

  /** s' is s after the reaper has led block c one stage further. */
  ghost predicate Advanced(s: State, s': State, c: Cid) {
    && c in s.blocks && c in s'.blocks && s'.blocks == s.blocks[c := s'.blocks[c]]
    && s'.blocks[c].id == s.blocks[c].id && !s'.blocks[c].stage.InQueue?
    && s'.blocks[c].listed == (s.blocks[c].listed && !s.blocks[c].stage.SyncGone?)
    && s'.nextId == s.nextId && s'.registered == s.registered && s'.lookupFailed == s.lookupFailed
    && s'.registry == (if s.blocks[c].stage.SyncGone? then Without(s.registry, c) else s.registry)
    && (if s.blocks[c].stage.InQueue? then
          s.queue != [] && s.queue[0].about == c && s'.queue == s.queue[1..]
        else
          s'.queue == s.queue)
  }

  lemma UnlistingKeepsRegistry(s: State, s': State, c: Cid)
    requires RegistryOk(s) && IdsOk(s) && c in s.blocks && c in s'.blocks && s'.blocks == s.blocks[c := s'.blocks[c]]
    requires s'.blocks[c].id == s.blocks[c].id && !s'.blocks[c].listed && s'.registry == Without(s.registry, c)
    requires s'.nextId == s.nextId && s'.registered == s.registered
    ensures RegistryOk(s') && IdsOk(s')
  {
    WithoutMembers(s.registry, c);
    WithoutKeepsDistinct(s.registry, c);
  }

  lemma SameRegistry(s: State, s': State, c: Cid)
    requires RegistryOk(s) && IdsOk(s) && c in s.blocks && c in s'.blocks && s'.blocks == s.blocks[c := s'.blocks[c]]
    requires s'.blocks[c].id == s.blocks[c].id && s'.blocks[c].listed == s.blocks[c].listed && s'.registry == s.registry
    requires s'.nextId == s.nextId && s'.registered == s.registered
    ensures RegistryOk(s') && IdsOk(s')
  {
  }

  lemma AdvanceKeepsRegistry(s: State, s': State, c: Cid)
    requires Advanced(s, s', c) && RegistryOk(s) && IdsOk(s)
    ensures RegistryOk(s') && IdsOk(s')
  {
    if s.blocks[c].stage.SyncGone? {
      UnlistingKeepsRegistry(s, s', c);
    } else {
      SameRegistry(s, s', c);
    }
  }

  lemma SameQueue(s: State, s': State, c: Cid)
    requires QueueOk(s) && c in s.blocks && c in s'.blocks && s'.blocks == s.blocks[c := s'.blocks[c]]
    requires s'.queue == s.queue && s'.blocks[c].id == s.blocks[c].id
    requires s'.blocks[c].stage.InQueue? == s.blocks[c].stage.InQueue?
    ensures QueueOk(s')
  {
    forall d | d in s'.blocks && s'.blocks[d].stage.InQueue?
      ensures Message(s'.blocks[d].id, d) in s'.queue
    {
      assert s.blocks[d].stage.InQueue?;
    }
  }

  lemma PoppingKeepsQueue(s: State, s': State, c: Cid)
    requires QueueOk(s) && c in s.blocks && c in s'.blocks && s'.blocks == s.blocks[c := s'.blocks[c]]
    requires s.queue != [] && s.queue[0].about == c && s'.queue == s.queue[1..]
    requires s'.blocks[c].id == s.blocks[c].id && !s'.blocks[c].stage.InQueue?
    ensures QueueOk(s')
  {
    forall d | d in s'.blocks && s'.blocks[d].stage.InQueue?
      ensures Message(s'.blocks[d].id, d) in s'.queue
    {
      var i :| 0 <= i < |s.queue| && s.queue[i] == Message(s.blocks[d].id, d);
      assert s'.queue[i - 1] == s.queue[i];
    }
  }

  lemma AdvanceKeepsQueue(s: State, s': State, c: Cid)
    requires Advanced(s, s', c) && QueueOk(s)
    ensures QueueOk(s')
  {
    if s.blocks[c].stage.InQueue? {
      PoppingKeepsQueue(s, s', c);
    } else {
      SameQueue(s, s', c);
    }
  }

  lemma AdvanceKeepsInv(s: State, s': State, c: Cid)
    requires Inv(s) && Advanced(s, s', c) && Advances(s.blocks[c], s'.blocks[c]) && ReaperOk(s')
    ensures Inv(s')
  {
    AdvanceKeepsBlock(s.blocks[c], s'.blocks[c]);
    BlocksKept(s, s', c);
    AdvanceKeepsRegistry(s, s', c);
    AdvanceKeepsQueue(s, s', c);
  }

  lemma ReceiveIsOk(s: State)
    requires ReaperEnabled(s, ReaperReceive) && QueueOk(s) && ReaperOk(s)
    ensures var s' := ReaperStep(s, ReaperReceive); var c := s.queue[0].about;
      Advanced(s, s', c) && Advances(s.blocks[c], s'.blocks[c]) && ReaperOk(s')
  {
    assert MessageOk(s, s.queue[0]);
  }

  lemma FindIsOk(s: State)
    requires ReaperEnabled(s, ReaperFind) && RegistryOk(s) && ReaperOk(s) && BlockOk(s.blocks[s.reaper.message.about])
    ensures var s' := ReaperStep(s, ReaperFind); var c := s.reaper.message.about;
      Advanced(s, s', c) && Advances(s.blocks[c], s'.blocks[c]) && ReaperOk(s')
  {
    LookupFinds(s.registry, s.blocks, s.reaper.message.about);
  }

  lemma PollIsOk(s: State)
    requires ReaperEnabled(s, ReaperPoll) && ReaperOk(s)
    ensures var s' := ReaperStep(s, ReaperPoll); var c := s.reaper.c;
      Advanced(s, s', c) && Advances(s.blocks[c], s'.blocks[c]) && ReaperOk(s')
  {
  }

  lemma DeleteThreadIsOk(s: State)
    requires ReaperEnabled(s, ReaperDeleteThread) && ReaperOk(s)
    ensures var s' := ReaperStep(s, ReaperDeleteThread); var c := s.reaper.c;
      Advanced(s, s', c) && Advances(s.blocks[c], s'.blocks[c]) && ReaperOk(s')
  {
  }

  lemma DeleteSyncIsOk(s: State)
    requires ReaperEnabled(s, ReaperDeleteSync) && ReaperOk(s)
    ensures var s' := ReaperStep(s, ReaperDeleteSync); var c := s.reaper.c;
      Advanced(s, s', c) && Advances(s.blocks[c], s'.blocks[c]) && ReaperOk(s')
  {
  }

  lemma UnregisterIsOk(s: State)
    requires ReaperEnabled(s, ReaperUnregister) && ReaperOk(s)
    ensures var s' := ReaperStep(s, ReaperUnregister); var c := s.reaper.c;
      Advanced(s, s', c) && Advances(s.blocks[c], s'.blocks[c]) && ReaperOk(s')
  {
  }

  lemma FreeIsOk(s: State)
    requires ReaperEnabled(s, ReaperFree) && ReaperOk(s) && BlockOk(s.blocks[s.reaper.c])
    ensures var s' := ReaperStep(s, ReaperFree); var c := s.reaper.c;
      Advanced(s, s', c) && Advances(s.blocks[c], s'.blocks[c]) && ReaperOk(s')
  {
  }

  lemma AckIsOk(s: State)
    requires ReaperEnabled(s, ReaperAck) && ReaperOk(s) && BlockOk(s.blocks[s.reaper.c])
    ensures BlockOk(ReaperStep(s, ReaperAck).blocks[s.reaper.c]) && ReaperOk(ReaperStep(s, ReaperAck))
  {
  }

  lemma AckKeepsInv(s: State)
    requires Inv(s) && ReaperEnabled(s, ReaperAck)
    ensures Inv(ReaperStep(s, ReaperAck))
  {
    var s' := ReaperStep(s, ReaperAck);
    AckIsOk(s);
    BlocksKept(s, s', s.reaper.c);
    SameRegistry(s, s', s.reaper.c);
    SameQueue(s, s', s.reaper.c);
  }

  lemma ReceiveKeepsInv(s: State)
    requires Inv(s) && ReaperEnabled(s, ReaperReceive)
    ensures Inv(ReaperStep(s, ReaperReceive))
  {
    ReceiveIsOk(s);
    AdvanceKeepsInv(s, ReaperStep(s, ReaperReceive), s.queue[0].about);
  }

  lemma FindKeepsInv(s: State)
    requires Inv(s) && ReaperEnabled(s, ReaperFind)
    ensures Inv(ReaperStep(s, ReaperFind))
  {
    FindIsOk(s);
    AdvanceKeepsInv(s, ReaperStep(s, ReaperFind), s.reaper.message.about);
  }

  lemma PollKeepsInv(s: State)
    requires Inv(s) && ReaperEnabled(s, ReaperPoll)
    ensures Inv(ReaperStep(s, ReaperPoll))
  {
    PollIsOk(s);
    AdvanceKeepsInv(s, ReaperStep(s, ReaperPoll), s.reaper.c);
  }

  lemma DeleteThreadKeepsInv(s: State)
    requires Inv(s) && ReaperEnabled(s, ReaperDeleteThread)
    ensures Inv(ReaperStep(s, ReaperDeleteThread))
  {
    DeleteThreadIsOk(s);
    AdvanceKeepsInv(s, ReaperStep(s, ReaperDeleteThread), s.reaper.c);
  }

  lemma DeleteSyncKeepsInv(s: State)
    requires Inv(s) && ReaperEnabled(s, ReaperDeleteSync)
    ensures Inv(ReaperStep(s, ReaperDeleteSync))
  {
    DeleteSyncIsOk(s);
    AdvanceKeepsInv(s, ReaperStep(s, ReaperDeleteSync), s.reaper.c);
  }

  lemma UnregisterKeepsInv(s: State)
    requires Inv(s) && ReaperEnabled(s, ReaperUnregister)
    ensures Inv(ReaperStep(s, ReaperUnregister))
  {
    UnregisterIsOk(s);
    AdvanceKeepsInv(s, ReaperStep(s, ReaperUnregister), s.reaper.c);
  }

  lemma FreeKeepsInv(s: State)
    requires Inv(s) && ReaperEnabled(s, ReaperFree)
    ensures Inv(ReaperStep(s, ReaperFree))
  {
    FreeIsOk(s);
    AdvanceKeepsInv(s, ReaperStep(s, ReaperFree), s.reaper.c);
  }

  lemma ReaperKeepsInv(s: State, e: Reap)
    requires Inv(s) && ReaperEnabled(s, e)
    ensures Inv(ReaperStep(s, e))
  {
    match e
    case ReaperReceive => ReceiveKeepsInv(s);
    case ReaperFind => FindKeepsInv(s);
    case ReaperPoll => PollKeepsInv(s);
    case ReaperDeleteThread => DeleteThreadKeepsInv(s);
    case ReaperDeleteSync => DeleteSyncKeepsInv(s);
    case ReaperUnregister => UnregisterKeepsInv(s);
    case ReaperFree => FreeKeepsInv(s);
    case ReaperAck => AckKeepsInv(s);
  }

  lemma AllocateKeepsLinks(s: State, c: Cid)
    requires Enabled(s, Allocate(c)) && RegistryOk(s) && IdsOk(s) && QueueOk(s)
    ensures var s' := s.(blocks := s.blocks[c := NEW_BLOCK]); RegistryOk(s') && IdsOk(s') && QueueOk(s')
  {
    var s' := s.(blocks := s.blocks[c := NEW_BLOCK]);
    forall d | d in s'.blocks && s'.blocks[d].stage.InQueue?
      ensures Message(s'.blocks[d].id, d) in s'.queue
    {
      assert s.blocks[d].stage.InQueue?;
    }
  }

  lemma AllocateKeepsInv(s: State, c: Cid)
    requires Inv(s) && Enabled(s, Allocate(c))
    ensures Inv(s.(blocks := s.blocks[c := NEW_BLOCK]))
  {
    var s' := s.(blocks := s.blocks[c := NEW_BLOCK]);
    AllocateKeepsLinks(s, c);
    BlocksKept(s, s', c);
    assert ReaperOk(s');
  }

  lemma StepKeepsInv(s: State, e: Event)
    requires Inv(s) && Enabled(s, e)
    ensures Inv(Apply(s, e))
  {
    match e
    case Allocate(c) => AllocateKeepsInv(s, c);
    case ByOwner(o) => OwnStepKeepsInv(s, o);
    case ByReaper(r) => ReaperKeepsInv(s, r);
  }

  // ----- What every run promises

  ghost predicate Step(s: State, s': State) {
    exists e :: Enabled(s, e) && s' == Apply(s, e)
  }

  ghost predicate IsRun(run: seq<State>) {
    && run != [] && run[0] == Init()
    && forall i: nat {:trigger StepAt(run, i)} :: i < |run| - 1 ==> StepAt(run, i)
  }

  ghost predicate StepAt(run: seq<State>, i: nat) { i < |run| - 1 && Step(run[i], run[i + 1]) }

  lemma {:induction false} RunInv(run: seq<State>, i: nat)
    requires IsRun(run) && i < |run|
    ensures Inv(run[i])
  {
    if i > 0 {
      RunInv(run, i - 1);
      assert StepAt(run, i - 1);
      var e :| Enabled(run[i - 1], e) && run[i] == Apply(run[i - 1], e);
      StepKeepsInv(run[i - 1], e);
    }
  }

  /** A block is queued at most once and freed at most once, and a block whose
      thread was created is freed only after that thread has completed. */
  lemma QueuedAndFreedOnce(run: seq<State>, i: nat, c: Cid)
    requires IsRun(run) && i < |run| && c in run[i].blocks
    ensures var b := run[i].blocks[c];
      && b.sends <= 1 && b.frees <= 1
      && (b.frees == 1 && !b.worker.NotStarted? ==> b.worker.Completed? && b.sends == 1)
      && (b.frees == 1 && b.worker.NotStarted? ==> b.creator.Disposed? && b.sends == 0)
  {
    RunInv(run, i);
    assert BlockOk(run[i].blocks[c]);
  }

  /** Events that read or write the control block itself. */
  predicate Touches(s: State, e: Event, c: Cid) {
    match e
    case Allocate(_) => false
    case ByOwner(o) => o.c == c && OwnerTouches(o)
    case ByReaper(r) => ReaperTouches(s, r, c)
  }

  predicate OwnerTouches(e: Own) {
    match e
    case Publish(_) => false
    case JoinStart(_) => false
    case DetachStart(_) => false
    case JoinCreateAck(_, _) => false
    case JoinGetAck(_) => false
    case JoinDeleteAck(_) => false
    case _ => true
  }

  predicate ReaperTouches(s: State, e: Reap, c: Cid) {
    match e
    case ReaperReceive => false
    case ReaperFind => s.reaper.Got? && s.reaper.message.about == c
    case ReaperPoll => s.reaper.Holding? && s.reaper.c == c
    case ReaperAck => false
    case _ => s.reaper.Deleting? && s.reaper.c == c
  }

  /** Events that use the lifecycle mutex or the completion semaphore. */
  predicate UsesSync(e: Own) {
    || e.WorkerLock? || e.WorkerUnlock? || e.WorkerPost? || e.JoinAbort? || e.JoinTake?
    || e.JoinLock? || e.JoinUnlock? || e.DetachLock? || e.DetachUnlock?
  }

  lemma OwnTouchIsSafe(s: State, e: Own, b: Block)
    requires BlockOk(b) && BlockEnabled(s, e, b) && OwnerTouches(e)
    ensures b.frees == 0
    ensures UsesSync(e) ==> !AfterDeath(b.stage)
  {
  }

  lemma ReaperTouchIsSafe(s: State, e: Reap, c: Cid)
    requires ReaperOk(s) && ReaperEnabled(s, e) && ReaperTouches(s, e, c) && c in s.blocks
    ensures !s.blocks[c].stage.Freed?
  {
  }

  /** No step touches a freed block, and none uses its mutex or completion
      semaphore once the reaper has begun to delete. */
  lemma NoUseAfterFree(run: seq<State>, i: nat, e: Event, c: Cid)
    requires IsRun(run) && i < |run| && Enabled(run[i], e) && c in run[i].blocks && Touches(run[i], e, c)
    ensures run[i].blocks[c].frees == 0
    ensures e.ByOwner? && UsesSync(e.own) ==> !AfterDeath(run[i].blocks[c].stage)
  {
    RunInv(run, i);
    assert BlockOk(run[i].blocks[c]);
    match e
    case ByOwner(o) => OwnTouchIsSafe(run[i], o, run[i].blocks[c]);
    case ByReaper(r) => ReaperTouchIsSafe(run[i], r, c);
  }

  /** Every registry lookup, by a starting thread or by the reaper, succeeds, and
      every registered block is allocated memory. */
  lemma LookupsNeverFail(run: seq<State>, i: nat)
    requires IsRun(run) && i < |run|
    ensures !run[i].lookupFailed && !run[i].reaper.Fatal?
    ensures forall c :: c in run[i].registry ==> c in run[i].blocks && run[i].blocks[c].frees == 0
  {
    RunInv(run, i);
    forall c | c in run[i].registry
      ensures run[i].blocks[c].frees == 0
    {
      assert BlockOk(run[i].blocks[c]);
    }
  }

  /** join returns 0 only after the thread has completed and its block is freed,
      and the acknowledgement it waits for exists until then. */
  lemma JoinReturnsAfterFree(run: seq<State>, i: nat, c: Cid)
    requires IsRun(run) && i < |run| && c in run[i].blocks
    ensures var b := run[i].blocks[c];
      && (b.claim.JoinDone? ==> b.claim.status == 0 && b.frees == 1 && b.worker.Completed?)
      && (run[i].reaper == Acking(c, true) ==> b.claim.JoinAwait? && b.ack == AckLive(0))
  {
    RunInv(run, i);
    assert BlockOk(run[i].blocks[c]);
  }

  /** The cleanup of c is in somebody's hands: a party about to send, a message
      in the queue, or the reaper. */
  ghost predicate CleanupPending(s: State, c: Cid)
    requires c in s.blocks
  {
    || WorkerSending(s.blocks[c].worker) || ClaimSending(s.blocks[c].claim)
    || Message(s.blocks[c].id, c) in s.queue
    || Serving(s, c)
  }

  /** A finished thread that was detached, or whose join got past its two early
      error returns, always has its cleanup pending or done. */
  lemma FinishedThreadsAreCleaned(run: seq<State>, i: nat, c: Cid)
    requires IsRun(run) && i < |run| && c in run[i].blocks && run[i].blocks[c].finished
    requires run[i].blocks[c].detached || JoinCommitted(run[i].blocks[c].claim)
    ensures CleanupPending(run[i], c) || run[i].blocks[c].frees == 1
  {
    RunInv(run, i);
    var b := run[i].blocks[c];
    assert BlockOk(b);
    if b.stage.InQueue? {
      assert Message(b.id, c) in run[i].queue;
    }
  }

  /** Once the thread has completed and the join or detach call has returned, the
      block is abandoned exactly when a join gave up before asking for cleanup. */
  lemma LeakedExactlyOnEarlyJoinError(run: seq<State>, i: nat, c: Cid)
    requires IsRun(run) && i < |run| && c in run[i].blocks && run[i].blocks[c].worker.Completed?
    requires var k := run[i].blocks[c].claim;
      k.JoinDone? || k.JoinAborted? || k.JoinStarved? || k.DetachDone?
    ensures !CleanupPending(run[i], c) && run[i].blocks[c].frees == 0
      <==> run[i].blocks[c].claim.JoinAborted? || run[i].blocks[c].claim.JoinStarved?
  {
    RunInv(run, i);
    var b := run[i].blocks[c];
    assert BlockOk(b);
    if b.stage.InQueue? {
      assert Message(b.id, c) in run[i].queue;
    }
    if Message(b.id, c) in run[i].queue {
      var k :| 0 <= k < |run[i].queue| && run[i].queue[k] == Message(b.id, c);
      assert run[i].blocks[run[i].queue[k].about].stage.InQueue?;
    }
  }

  /** The distinct-id assumption of Register holds by itself for the first
      2^32 - 1 registrations. */
  lemma IdsAreFresh(run: seq<State>, i: nat)
    requires IsRun(run) && i < |run| && run[i].registered < ID_LIMIT - 1
    ensures FreshId(run[i]) && run[i].nextId == run[i].registered + 1
  {
    RunInv(run, i);
  }

  // ----- After a failed join

  /** The completion is spent and no join has gone on to ask for cleanup. */
  predicate Spent(b: Block) {
    b.taken && (b.claim.JoinStarved? || b.claim.JoinWait? || b.claim.JoinAborted? || DetachClaim(b.claim))
  }

  predicate DetachClaim(c: Claim) {
    c.DetachWait? || c.DetachRefused? || c.DetachMarked? || c.DetachSend? || c.DetachDone?
  }

  lemma SpentBlockStep(s: State, e: Own, b: Block)
    requires BlockOk(b) && Spent(b) && BlockEnabled(s, e, b)
    ensures Spent(BlockStep(s, e, b)) && !e.JoinTake?
  {
  }

  lemma StepKeepsSpent(s: State, e: Event, c: Cid)
    requires Inv(s) && Enabled(s, e) && c in s.blocks && Spent(s.blocks[c])
    ensures c in Apply(s, e).blocks && Spent(Apply(s, e).blocks[c])
  {
    assert BlockOk(s.blocks[c]);
    match e
    case Allocate(_) =>
    case ByReaper(r) => ReaperKeepsClaims(s, r, c);
    case ByOwner(o) =>
      if o.c == c {
        SpentBlockStep(s, o, s.blocks[c]);
      }
  }

  lemma ReaperKeepsClaims(s: State, e: Reap, c: Cid)
    requires ReaperEnabled(s, e) && c in s.blocks
    ensures c in ReaperStep(s, e).blocks
    ensures ReaperStep(s, e).blocks[c].claim == s.blocks[c].claim &&
      ReaperStep(s, e).blocks[c].taken == s.blocks[c].taken
  {
  }

  predicate KeepsSpent(s: State, s': State, c: Cid) {
    c in s.blocks && Spent(s.blocks[c]) ==> c in s'.blocks && Spent(s'.blocks[c])
  }

  lemma AnyStepKeepsSpent(run: seq<State>, i: nat, c: Cid)
    requires IsRun(run) && i + 1 < |run|
    ensures KeepsSpent(run[i], run[i + 1], c)
  {
    RunInv(run, i);
    assert StepAt(run, i);
    var e :| Enabled(run[i], e) && run[i + 1] == Apply(run[i], e);
    if c in run[i].blocks && Spent(run[i].blocks[c]) {
      StepKeepsSpent(run[i], e, c);
    }
  }

  lemma {:induction false} SpentForEver(run: seq<State>, i: nat, j: nat, c: Cid)
    requires i <= j < |run| && c in run[i].blocks && Spent(run[i].blocks[c])
    requires forall m :: i <= m < j ==> KeepsSpent(run[m], run[m + 1], c)
    ensures c in run[j].blocks && Spent(run[j].blocks[c])
    decreases j
  {
    if i < j {
      SpentForEver(run, i, j - 1, c);
      assert KeepsSpent(run[j - 1], run[j - 1 + 1], c);
    }
  }

  lemma SpentMeansEmpty(run: seq<State>, i: nat, c: Cid)
    requires IsRun(run) && i < |run| && c in run[i].blocks
    ensures run[i].blocks[c].claim.JoinStarved? ==> Spent(run[i].blocks[c])
    ensures Spent(run[i].blocks[c]) ==> run[i].blocks[c].completion == 0
  {
    RunInv(run, i);
    assert BlockOk(run[i].blocks[c]);
  }

  /** Once a join has failed with EAGAIN, its handle is beyond joining: whatever
      happens later, the completion is never taken again, so a second join can only
      wait or be aborted. */
  lemma StarvedHandleNeverJoins(run: seq<State>, i: nat, j: nat, c: Cid)
    requires IsRun(run) && i <= j < |run| && c in run[i].blocks && run[i].blocks[c].claim.JoinStarved?
    ensures c in run[j].blocks && Spent(run[j].blocks[c]) && run[j].blocks[c].completion == 0
  {
    SpentMeansEmpty(run, i, c);
    forall m | i <= m < j
      ensures KeepsSpent(run[m], run[m + 1], c)
    {
      AnyStepKeepsSpent(run, m, c);
    }
    SpentForEver(run, i, j, c);
    SpentMeansEmpty(run, j, c);
  }

  /** Detaching such a handle still reclaims the block: the detach succeeds, and
      from then on the cleanup is pending or done. */
  lemma DetachReclaims(run: seq<State>, i: nat, j: nat, c: Cid)
    requires IsRun(run) && i <= j < |run| && c in run[i].blocks && run[i].blocks[c].claim.JoinStarved?
    requires c in run[j].blocks && run[j].blocks[c].claim.DetachDone?
    ensures run[j].blocks[c].claim.status == 0 && (CleanupPending(run[j], c) || run[j].blocks[c].frees == 1)
  {
    StarvedHandleNeverJoins(run, i, j, c);
    RunInv(run, j);
    assert BlockOk(run[j].blocks[c]);
    FinishedThreadsAreCleaned(run, j, c);
  }

  // ----- The abandoned block

  /** The state with one registered block. */
  function One(b: Block): State { State(map[0 := b], [0], [], Idle, 2, 1, false) }

  lemma StepContinues(run: seq<State>, e: Event) returns (longer: seq<State>)
    requires IsRun(run) && Enabled(run[|run| - 1], e)
    ensures IsRun(longer) && longer[|longer| - 1] == Apply(run[|run| - 1], e)
  {
    var last := run[|run| - 1];
    longer := run + [Apply(last, e)];
    assert Step(last, Apply(last, e));
    forall i: nat | i < |longer| - 1
      ensures StepAt(longer, i)
    {
      assert i < |run| - 1 ==> StepAt(run, i);
    }
  }

  predicate Plain(e: Own) { !e.Register? && !e.Withdraw? && !Sends(e) && !e.WorkerFind? }

  lemma OneContinues(run: seq<State>, b: Block, e: Own) returns (longer: seq<State>)
    requires IsRun(run) && run[|run| - 1] == One(b) && Plain(e) && e.c == 0 && BlockEnabled(One(b), e, b)
    ensures IsRun(longer) && longer[|longer| - 1] == One(BlockStep(One(b), e, b))
  {
    longer := StepContinues(run, ByOwner(e));
    assert map[0 := b][0 := BlockStep(One(b), e, b)] == map[0 := BlockStep(One(b), e, b)];
  }

  const REGISTERED := NEW_BLOCK.(creator := Registered, id := 1, listed := true)
  const RUNNING := REGISTERED.(creator := Published, worker := Running)

  lemma RegisteredRun() returns (run: seq<State>)
    ensures IsRun(run) && run[|run| - 1] == One(REGISTERED)
  {
    run := [Init()];
    run := StepContinues(run, Allocate(0));
    run := StepContinues(run, ByOwner(Register(0)));
    assert [0] + [] == [0];
    assert run[|run| - 1].blocks == map[0 := REGISTERED];
  }

  /** Block 0 is published, and its thread runs. */
  lemma RunningRun() returns (run: seq<State>)
    ensures IsRun(run) && run[|run| - 1] == One(RUNNING)
  {
    run := RegisteredRun();
    var b := REGISTERED;
    run := OneContinues(run, b, CreateThread(0, true));
    b := BlockStep(One(b), CreateThread(0, true), b);
    run := OneContinues(run, b, Publish(0));
    b := BlockStep(One(b), Publish(0), b);
    assert Lookup([0], map[0 := b], 1) == Some(0);
    run := StepContinues(run, ByOwner(WorkerFind(0)));
    assert run[|run| - 1].blocks == map[0 := RUNNING];
  }

  const POSTED := RUNNING.(worker := Posted(false), finished := true, completion := 1)

  /** Block 0 is joined, and its thread has posted its completion. */
  lemma PostedRun() returns (run: seq<State>)
    ensures IsRun(run) && run[|run| - 1] == One(POSTED.(claim := JoinWait))
  {
    run := RunningRun();
    var b := RUNNING;
    run := OneContinues(run, b, JoinStart(0));
    b := b.(claim := JoinWait);
    run := OneContinues(run, b, WorkerLock(0));
    b := BlockStep(One(b), WorkerLock(0), b);
    run := OneContinues(run, b, WorkerUnlock(0));
    b := BlockStep(One(b), WorkerUnlock(0), b);
    run := OneContinues(run, b, WorkerPost(0));
  }

  /** Nobody will ever clean up block 0. */
  ghost predicate Abandoned(s: State) {
    0 in s.blocks && s.blocks[0].worker.Completed? && s.blocks[0].frees == 0 && !CleanupPending(s, 0)
  }

  lemma ExitAbandons(run: seq<State>, b: Block) returns (longer: seq<State>)
    requires IsRun(run) && run[|run| - 1] == One(b) && b.worker == Posted(false) && b.frees == 0 &&
      !ClaimSending(b.claim)
    ensures IsRun(longer) && longer[|longer| - 1] == One(b.(worker := Completed(false))) &&
      Abandoned(longer[|longer| - 1])
  {
    longer := OneContinues(run, b, WorkerExit(0));
  }

  const STARVED := POSTED.(claim := JoinStarved, completion := 0, taken := true)

  /** The join of block 0 has taken the completion, and failed. */
  lemma StarvedRun() returns (run: seq<State>)
    ensures IsRun(run) && run[|run| - 1] == One(STARVED)
  {
    run := PostedRun();
    var b := POSTED.(claim := JoinWait);
    run := OneContinues(run, b, JoinTake(0));
    b := b.(claim := JoinTaken, completion := 0, taken := true);
    run := OneContinues(run, b, JoinCreateAck(0, false));
  }

  /** A join that fails with EAGAIN, the acknowledgement having failed to be
      created, abandons the block. */
  lemma StarvedJoinAbandons() returns (run: seq<State>)
    ensures IsRun(run) && Abandoned(run[|run| - 1]) && run[|run| - 1].blocks[0].claim.JoinStarved?
  {
    run := StarvedRun();
    run := ExitAbandons(run, STARVED);
  }

  /** So does one whose wait for the completion is aborted, which fails with
      EINVAL. */
  lemma AbortedJoinAbandons() returns (run: seq<State>)
    ensures IsRun(run) && Abandoned(run[|run| - 1]) && run[|run| - 1].blocks[0].claim.JoinAborted?
  {
    run := PostedRun();
    run := OneContinues(run, POSTED.(claim := JoinWait), JoinAbort(0));
    run := ExitAbandons(run, POSTED.(claim := JoinAborted));
  }
}
