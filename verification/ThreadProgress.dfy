/**
 What a thread's life cycle comes to: who can go on when, what the reaper does with
 one message, and runs from creation to the reclaimed block.
 */
module ThreadProgress {
  import opened Fifo
  import opened Wrappers
  import opened ThreadLifecycle

  // ----- The acknowledgement

  /** A freed block whose join has asked for an acknowledgement and not had it is the
      one that the reaper is about to acknowledge. */
  ghost predicate AckOk(s: State) { forall c :: c in s.blocks && Unacked(s.blocks[c]) ==> s.reaper == Acking(c, true) }

  predicate Unacked(b: Block) { b.stage.Freed? && b.ackSet && !b.acked }

  lemma OwnStepUnacked(s: State, e: Own, b: Block)
    requires BlockOk(b) && BlockEnabled(s, e, b)
    ensures Unacked(BlockStep(s, e, b)) ==> Unacked(b)
  {
    BlockStepOk(s, e, b);
  }

  lemma OwnStepKeepsAck(s: State, e: Own)
    requires BlocksOk(s) && AckOk(s) && OwnEnabled(s, e)
    ensures AckOk(OwnStep(s, e))
  {
    OwnStepUnacked(s, e, s.blocks[e.c]);
    assert OwnStep(s, e).blocks[e.c] == BlockStep(s, e, s.blocks[e.c]);
  }

  /** What a step of the reaper does to the blocks it does not work on. */
  lemma ReaperLeavesOthers(s: State, e: Reap, c: Cid)
    requires Inv(s) && ReaperEnabled(s, e) && c in ReaperStep(s, e).blocks && Unacked(ReaperStep(s, e).blocks[c])
    ensures c in s.blocks && (Unacked(s.blocks[c]) || (e.ReaperFree? && c == s.reaper.c))
    ensures e.ReaperAck? ==> c != s.reaper.c || !s.reaper.ack
  {
  }

  lemma ReaperStepKeepsAck(s: State, e: Reap)
    requires Inv(s) && AckOk(s) && ReaperEnabled(s, e)
    ensures AckOk(ReaperStep(s, e))
  {
    var s' := ReaperStep(s, e);
    forall c | c in s'.blocks && Unacked(s'.blocks[c])
      ensures s'.reaper == Acking(c, true)
    {
      ReaperLeavesOthers(s, e, c);
    }
  }

  lemma {:induction false} RunKeepsAck(run: seq<State>, i: nat)
    requires IsRun(run) && i < |run|
    ensures AckOk(run[i])
  {
    if i > 0 {
      RunKeepsAck(run, i - 1);
      RunInv(run, i - 1);
      assert StepAt(run, i - 1);
      var e :| Enabled(run[i - 1], e) && run[i] == Apply(run[i - 1], e);
      match e
      case Allocate(c) =>
      case ByOwner(o) => OwnStepKeepsAck(run[i - 1], o);
      case ByReaper(r) => ReaperStepKeepsAck(run[i - 1], r);
    }
  }

  /** Once the block is freed, a join that waits for the acknowledgement has it, and
      can return, or the reaper is about to post it. */
  lemma JoinIsAcknowledged(run: seq<State>, i: nat, c: Cid)
    requires IsRun(run) && i < |run| && c in run[i].blocks
    requires run[i].blocks[c].claim.JoinAwait? && run[i].blocks[c].stage.Freed?
    ensures run[i].reaper == Acking(c, true) ||
            (run[i].blocks[c].ack == AckLive(1) && OwnEnabled(run[i], JoinGetAck(c)))
    ensures run[i].reaper == Acking(c, true) ==>
      && ReaperEnabled(run[i], ReaperAck) && var s := ReaperStep(run[i], ReaperAck);
         s.blocks[c].ack == AckLive(1) && OwnEnabled(s, JoinGetAck(c))
  {
    RunInv(run, i);
    RunKeepsAck(run, i);
    assert BlockOk(run[i].blocks[c]);
  }

  // ----- The reaper serves one message

  /** The block of the first message is taken up. */
  lemma ReaperTakesUp(run: seq<State>, i: nat)
    requires IsRun(run) && i < |run| && run[i].reaper.Idle? && run[i].queue != []
    ensures ReaperEnabled(run[i], ReaperReceive) && ReaperEnabled(ReaperStep(run[i], ReaperReceive), ReaperFind)
    ensures var s, c := run[i], run[i].queue[0].about;
      && c in s.blocks
      && ReaperStep(ReaperStep(s, ReaperReceive), ReaperFind) ==
           s.(queue := s.queue[1..], reaper := Holding(c), blocks := s.blocks[c := s.blocks[c].(stage := Found)])
  {
    RunInv(run, i);
    var s, c := run[i], run[i].queue[0].about;
    assert MessageOk(s, s.queue[0]);
    assert BlockOk(s.blocks[c]);
    var u := ReaperStep(s, ReaperReceive);
    LookupFinds(u.registry, u.blocks, c);
    var r := s.blocks[c].(stage := Received);
    assert u.blocks == s.blocks[c := r];
    assert s.blocks[c := r][c := r.(stage := Found)] == s.blocks[c := s.blocks[c].(stage := Found)];
  }

  /** What is left of a block that has been cleaned up. */
  function Cleaned(b: Block): Block {
    var a := if b.ackSet && b.ack.AckLive? then b.(ack := AckLive(b.ack.count + 1)) else b;
    a.(stage := Freed, listed := false, frees := b.frees + 1, acked := b.ackSet || b.acked)
  }

  predicate ReaperCan(s: State, es: seq<Reap>)
    decreases |es|
  {
    es == [] || (ReaperEnabled(s, es[0]) && ReaperCan(ReaperStep(s, es[0]), es[1..]))
  }

  function ReaperDoes(s: State, es: seq<Reap>): State
    requires ReaperCan(s, es)
    decreases |es|
  {
    if es == [] then s else ReaperDoes(ReaperStep(s, es[0]), es[1..])
  }

  lemma ReaperStepsOn(s: State, e: Reap, es: seq<Reap>)
    requires ReaperEnabled(s, e) && ReaperCan(ReaperStep(s, e), es)
    ensures ReaperCan(s, [e] + es) && ReaperDoes(s, [e] + es) == ReaperDoes(ReaperStep(s, e), es)
  {
    assert ([e] + es)[1..] == es;
  }

  function Put(s: State, c: Cid, b: Block, reaper: Reaper): State { s.(blocks := s.blocks[c := b], reaper := reaper) }

  lemma PutTwice(s: State, c: Cid, a: Block, b: Block, p: Reaper, q: Reaper)
    ensures Put(Put(s, c, a, p), c, b, q) == Put(s, c, b, q)
  {
  }

  const DELETIONS := [ReaperPoll, ReaperDeleteThread, ReaperDeleteSync]
  const RELEASE := [ReaperUnregister, ReaperFree, ReaperAck]

  lemma PollStep(s: State, c: Cid)
    requires s.reaper == Holding(c) && c in s.blocks && s.blocks[c].worker.Completed?
    ensures ReaperEnabled(s, ReaperPoll)
    ensures ReaperStep(s, ReaperPoll) == Put(s, c, s.blocks[c].(stage := Dead), Deleting(c, s.blocks[c].ackSet))
  {
  }

  lemma DeleteSteps(s: State, c: Cid, b: Block, ack: bool)
    ensures var u := Put(s, c, b.(stage := Dead), Deleting(c, ack));
      && ReaperEnabled(u, ReaperDeleteThread)
      && ReaperStep(u, ReaperDeleteThread) == Put(s, c, b.(stage := ThreadGone), Deleting(c, ack))
    ensures var v := Put(s, c, b.(stage := ThreadGone), Deleting(c, ack));
      && ReaperEnabled(v, ReaperDeleteSync)
      && ReaperStep(v, ReaperDeleteSync) == Put(s, c, b.(stage := SyncGone), Deleting(c, ack))
  {
    var r := Deleting(c, ack);
    PutTwice(s, c, b.(stage := Dead), b.(stage := ThreadGone), r, r);
    PutTwice(s, c, b.(stage := ThreadGone), b.(stage := SyncGone), r, r);
  }

  /** When its thread has completed, the thread object, the semaphore and the mutex of
      a block are deleted. */
  lemma ReaperDeletes(s: State, c: Cid)
    requires s.reaper == Holding(c) && c in s.blocks && s.blocks[c].worker.Completed?
    ensures ReaperCan(s, DELETIONS)
    ensures ReaperDoes(s, DELETIONS) == Put(s, c, s.blocks[c].(stage := SyncGone), Deleting(c, s.blocks[c].ackSet))
  {
    var b, ack := s.blocks[c], s.blocks[c].ackSet;
    PollStep(s, c);
    DeleteSteps(s, c, b, ack);
    var s1 := ReaperStep(s, ReaperPoll);
    var s2 := ReaperStep(s1, ReaperDeleteThread);
    ReaperStepsOn(s2, ReaperDeleteSync, []);
    ReaperStepsOn(s1, ReaperDeleteThread, [ReaperDeleteSync]);
    ReaperStepsOn(s, ReaperPoll, [ReaperDeleteThread, ReaperDeleteSync]);
  }

  function Unregistered(b: Block): Block { b.(stage := Unlisted, listed := false) }

  function Released(b: Block): Block { b.(stage := Freed, listed := false, frees := b.frees + 1) }

  lemma UnregisterStep(s: State, c: Cid)
    requires c in s.blocks && s.blocks[c].stage.SyncGone? && s.reaper == Deleting(c, s.blocks[c].ackSet)
    ensures ReaperEnabled(s, ReaperUnregister)
    ensures ReaperStep(s, ReaperUnregister) ==
      Put(s.(registry := Without(s.registry, c)), c, Unregistered(s.blocks[c]), s.reaper)
  {
  }

  lemma FreeStep(s: State, c: Cid, b: Block, ack: bool)
    ensures var u := Put(s, c, Unregistered(b), Deleting(c, ack));
      ReaperEnabled(u, ReaperFree) && ReaperStep(u, ReaperFree) == Put(s, c, Released(b), Acking(c, ack))
  {
    PutTwice(s, c, Unregistered(b), Released(b), Deleting(c, ack), Acking(c, ack));
  }

  function Acked(b: Block): Block {
    b.(acked := true, ack := if b.ack.AckLive? then AckLive(b.ack.count + 1) else b.ack)
  }

  lemma AckedIsCleaned(b: Block)
    ensures (if b.ackSet then Acked(Released(b)) else Released(b)) == Cleaned(b)
  {
  }

  lemma AckStep(s: State, c: Cid, b: Block)
    ensures var u := Put(s, c, Released(b), Acking(c, b.ackSet));
      ReaperEnabled(u, ReaperAck) && ReaperStep(u, ReaperAck) == Put(s, c, Cleaned(b), Idle)
  {
    var u := Put(s, c, Released(b), Acking(c, b.ackSet));
    var d := if b.ackSet then Acked(Released(b)) else Released(b);
    assert ReaperStep(u, ReaperAck) == Put(u, c, d, Idle);
    AckedIsCleaned(b);
    PutTwice(s, c, Released(b), d, Acking(c, b.ackSet), Idle);
  }

  /** Then the block is unregistered and freed, and a join is acknowledged. */
  lemma ReaperReleases(s: State, c: Cid)
    requires c in s.blocks && s.blocks[c].stage.SyncGone? && s.reaper == Deleting(c, s.blocks[c].ackSet)
    ensures ReaperCan(s, RELEASE)
    ensures ReaperDoes(s, RELEASE) == Put(s.(registry := Without(s.registry, c)), c, Cleaned(s.blocks[c]), Idle)
  {
    var b, u := s.blocks[c], s.(registry := Without(s.registry, c));
    UnregisterStep(s, c);
    FreeStep(u, c, b, b.ackSet);
    AckStep(u, c, b);
    var s1 := ReaperStep(s, ReaperUnregister);
    var s2 := ReaperStep(s1, ReaperFree);
    ReaperStepsOn(s2, ReaperAck, []);
    ReaperStepsOn(s1, ReaperFree, [ReaperAck]);
    ReaperStepsOn(s, ReaperUnregister, [ReaperFree, ReaperAck]);
  }

  // ----- Who can go on

  /** What the thread does next. */
  function NextOfWorker(c: Cid, w: Worker): Option<Own> {
    match w
    case NotStarted => None
    case Starting => Some(WorkerFind(c))
    case Running => Some(WorkerLock(c))
    case Flagged(_) => Some(WorkerUnlock(c))
    case Unlocked(_) => Some(WorkerPost(c))
    case Posted(enqueue) => Some(if enqueue then WorkerSend(c) else WorkerExit(c))
    case Sent => Some(WorkerExit(c))
    case Completed(_) => None
  }

  /** What a join or detach does next if its calls succeed. */
  function NextOfClaim(c: Cid, k: Claim): Option<Own> {
    match k
    case JoinWait => Some(JoinTake(c))
    case JoinTaken => Some(JoinCreateAck(c, true))
    case JoinReady => Some(JoinLock(c))
    case JoinRefused => Some(JoinUnlock(c))
    case JoinMarked => Some(JoinUnlock(c))
    case JoinSend => Some(JoinEnqueue(c))
    case JoinAwait => Some(JoinGetAck(c))
    case JoinClosing => Some(JoinDeleteAck(c))
    case DetachWait => Some(DetachLock(c))
    case DetachRefused => Some(DetachUnlock(c))
    case DetachMarked(_) => Some(DetachUnlock(c))
    case DetachSend => Some(DetachEnqueue(c))
    case _ => None
  }

  function NextOfReaper(s: State): Option<Reap> {
    match s.reaper
    case Idle => if s.queue == [] then None else Some(ReaperReceive)
    case Got(_) => Some(ReaperFind)
    case Holding(_) => Some(ReaperPoll)
    case Deleting(c, _) =>
      if c !in s.blocks then None
      else (match s.blocks[c].stage
            case Dead => Some(ReaperDeleteThread)
            case ThreadGone => Some(ReaperDeleteSync)
            case SyncGone => Some(ReaperUnregister)
            case _ => Some(ReaperFree))
    case Acking(_, _) => Some(ReaperAck)
    case Fatal => None
  }

  /** When the next step of a thread is possible. */
  predicate WorkerReady(b: Block, queued: nat) {
    !(b.worker.Running? && ClaimLocks(b.claim)) && !(b.worker == Posted(true) && queued == QUEUE_DEPTH)
  }

  lemma BlockGoesOn(s: State, b: Block, c: Cid)
    requires BlockOk(b) && NextOfWorker(c, b.worker).Some? && |s.queue| <= QUEUE_DEPTH
    ensures BlockEnabled(s, NextOfWorker(c, b.worker).value, b) <==> WorkerReady(b, |s.queue|)
  {
    match b.worker
    case Running =>
    case Posted(_) =>
    case _ =>
  }

  /** A thread can go on unless a join or detach holds its mutex or the queue is full. */
  lemma WorkerGoesOn(run: seq<State>, i: nat, c: Cid)
    requires IsRun(run) && i < |run| && c in run[i].blocks && NextOfWorker(c, run[i].blocks[c].worker).Some?
    ensures BlockEnabled(run[i], NextOfWorker(c, run[i].blocks[c].worker).value, run[i].blocks[c]) <==>
            WorkerReady(run[i].blocks[c], |run[i].queue|)
  {
    RunInv(run, i);
    BlockGoesOn(run[i], run[i].blocks[c], c);
  }

  /** When the next step of a join or detach is possible. */
  predicate ClaimReady(b: Block, queued: nat) {
    match b.claim
    case JoinWait => HasPosted(b.worker) && !b.taken
    case JoinReady => !b.worker.Flagged?
    case DetachWait => !b.worker.Flagged?
    case JoinSend => queued < QUEUE_DEPTH
    case DetachSend => queued < QUEUE_DEPTH
    case JoinAwait => b.acked
    case _ => true
  }

  predicate Detaches(k: Claim) { k.DetachWait? || k.DetachRefused? || k.DetachMarked? || k.DetachSend? }

  lemma JoinGoesOn(s: State, b: Block, c: Cid)
    requires BlockOk(b) && NextOfClaim(c, b.claim).Some? && !Detaches(b.claim) && |s.queue| <= QUEUE_DEPTH
    ensures BlockEnabled(s, NextOfClaim(c, b.claim).value, b) <==> ClaimReady(b, |s.queue|)
  {
  }

  lemma DetachGoesOn(s: State, b: Block, c: Cid)
    requires BlockOk(b) && NextOfClaim(c, b.claim).Some? && Detaches(b.claim) && |s.queue| <= QUEUE_DEPTH
    ensures BlockEnabled(s, NextOfClaim(c, b.claim).value, b) <==> ClaimReady(b, |s.queue|)
  {
  }

  /** A join or detach can go on unless the thread has not posted its completion, the
      thread holds the mutex, the queue is full, or the block has not been freed and
      acknowledged yet. */
  lemma ClaimGoesOn(run: seq<State>, i: nat, c: Cid)
    requires IsRun(run) && i < |run| && c in run[i].blocks && NextOfClaim(c, run[i].blocks[c].claim).Some?
    ensures var b := run[i].blocks[c];
      BlockEnabled(run[i], NextOfClaim(c, b.claim).value, b) <==> ClaimReady(b, |run[i].queue|)
  {
    RunInv(run, i);
    var s, b := run[i], run[i].blocks[c];
    assert BlockOk(b);
    if Detaches(b.claim) {
      DetachGoesOn(s, b, c);
    } else {
      JoinGoesOn(s, b, c);
    }
  }

  /** The reaper can go on unless there is nothing to do or the thread whose block it
      has taken up has not completed; that thread can go on then. */
  lemma ReaperGoesOn(run: seq<State>, i: nat)
    requires IsRun(run) && i < |run|
    ensures var s := run[i];
      match NextOfReaper(s)
      case None => s.reaper.Idle? && s.queue == []
      case Some(e) =>
        if s.reaper.Holding? then
          && s.reaper.c in s.blocks && var w := s.blocks[s.reaper.c].worker;
             if w.Completed? then ReaperEnabled(s, e)
             else NextOfWorker(s.reaper.c, w).Some? && OwnEnabled(s, NextOfWorker(s.reaper.c, w).value)
        else
          ReaperEnabled(s, e)
  {
    RunInv(run, i);
    var s := run[i];
    match s.reaper
    case Holding(c) =>
      assert BlockOk(s.blocks[c]);
      if !s.blocks[c].worker.Completed? {
        BlockGoesOn(s, s.blocks[c], c);
      }
    case Deleting(c, _) =>
    case _ =>
  }

  /** A join or detach of a block that is detached or about to be cleaned up already is
      refused with EINVAL. */
  lemma SecondClaimIsRefused(s: State, c: Cid, b: Block)
    requires b.lock.Free? && (b.detached || b.queued)
    ensures b.claim.JoinReady? ==>
      && BlockEnabled(s, JoinLock(c), b) && var u := BlockStep(s, JoinLock(c), b);
         u.lock.ByClaim? && BlockEnabled(s, JoinUnlock(c), u) && BlockStep(s, JoinUnlock(c), u) ==
           b.(claim := JoinDone(EINVAL), ack := AckDeleted)
    ensures b.claim.DetachWait? ==>
      && BlockEnabled(s, DetachLock(c), b) && var u := BlockStep(s, DetachLock(c), b);
         u.lock.ByClaim? && BlockEnabled(s, DetachUnlock(c), u) && BlockStep(s, DetachUnlock(c), u) ==
           b.(claim := DetachDone(EINVAL, false))
  {
  }

  function WorkerPhase(w: Worker): nat {
    match w
    case NotStarted => 0
    case Starting => 1
    case Running => 2
    case Flagged(_) => 3
    case Unlocked(_) => 4
    case Posted(_) => 5
    case Sent => 6
    case Completed(_) => 7
  }

  function ClaimPhase(k: Claim): nat {
    match k
    case JoinWait => 1
    case JoinTaken => 2
    case JoinReady => 3
    case JoinRefused => 4
    case JoinMarked => 4
    case JoinSend => 5
    case JoinAwait => 6
    case JoinClosing => 7
    case DetachWait => 1
    case DetachRefused => 2
    case DetachMarked(_) => 2
    case DetachSend => 3
    case _ => 0
  }

  predicate IsWorkers(e: Own) {
    e.WorkerFind? || e.WorkerLock? || e.WorkerUnlock? || e.WorkerPost? || e.WorkerSend? || e.WorkerExit?
  }

  predicate IsClaims(e: Own) { !IsWorkers(e) && !IsCreators(e) && !e.JoinStart? && !e.DetachStart? }

  predicate IsCreators(e: Own) { e.Register? || e.CreateThread? || e.Publish? || e.Withdraw? || e.Dispose? }

  /** Every step of a thread takes it further and leaves joins and detaches where they
      are. */
  lemma WorkerStepsAdvance(s: State, e: Own, b: Block)
    requires BlockEnabled(s, e, b) && IsWorkers(e)
    ensures WorkerPhase(BlockStep(s, e, b).worker) > WorkerPhase(b.worker) && BlockStep(s, e, b).claim == b.claim
  {
    match e
    case WorkerFind(_) =>
    case WorkerLock(_) =>
    case WorkerUnlock(_) =>
    case WorkerPost(_) =>
    case WorkerSend(_) =>
    case WorkerExit(_) =>
  }

  predicate IsFirstHalf(e: Own) { e.JoinAbort? || e.JoinTake? || e.JoinCreateAck? || e.JoinLock? }

  predicate IsSecondHalf(e: Own) { e.JoinUnlock? || e.JoinEnqueue? || e.JoinGetAck? || e.JoinDeleteAck? }

  /** The thread and its registration are as they were. */
  predicate SameThread(b: Block, b': Block) { b'.id == b.id && b'.creator == b.creator && b'.worker == b.worker }

  predicate Advances(e: Own, b: Block, b': Block) {
    SameThread(b, b') && (ClaimPhase(b'.claim) > ClaimPhase(b.claim) || NextOfClaim(e.c, b'.claim).None?)
  }

  lemma JoinBegins(s: State, e: Own, b: Block)
    requires BlockEnabled(s, e, b) && IsFirstHalf(e)
    ensures Advances(e, b, BlockStep(s, e, b))
  {
    match e
    case JoinAbort(_) =>
    case JoinTake(_) =>
    case JoinCreateAck(_, _) =>
    case JoinLock(_) =>
  }

  lemma JoinEnds(s: State, e: Own, b: Block)
    requires BlockEnabled(s, e, b) && IsSecondHalf(e)
    ensures Advances(e, b, BlockStep(s, e, b))
  {
    match e
    case JoinUnlock(_) =>
    case JoinEnqueue(_) =>
    case JoinGetAck(_) =>
    case JoinDeleteAck(_) =>
  }

  lemma DetachUnlocks(s: State, c: Cid, b: Block)
    requires BlockEnabled(s, DetachUnlock(c), b)
    ensures Advances(DetachUnlock(c), b, BlockStep(s, DetachUnlock(c), b))
  {
    match b.claim
    case DetachRefused =>
    case DetachMarked(enqueue) =>
      if enqueue {
      } else {
      }
  }

  lemma DetachStepsAdvance(s: State, e: Own, b: Block)
    requires BlockEnabled(s, e, b) && (e.DetachLock? || e.DetachEnqueue?)
    ensures Advances(e, b, BlockStep(s, e, b))
  {
  }

  /** Every step of a join or detach takes it further or ends it, and leaves the thread
      where it is. */
  lemma ClaimStepsAdvance(s: State, e: Own, b: Block)
    requires BlockEnabled(s, e, b) && IsClaims(e)
    ensures Advances(e, b, BlockStep(s, e, b))
  {
    if IsFirstHalf(e) {
      JoinBegins(s, e, b);
    } else if IsSecondHalf(e) {
      JoinEnds(s, e, b);
    } else if e.DetachUnlock? {
      DetachUnlocks(s, e.c, b);
    } else {
      DetachStepsAdvance(s, e, b);
    }
  }

  function ReaperPhase(s: State): nat {
    match s.reaper
    case Idle => 0
    case Got(_) => 1
    case Holding(_) => 2
    case Deleting(c, _) =>
      if c !in s.blocks then 3
      else (match s.blocks[c].stage
            case Dead => 3
            case ThreadGone => 4
            case SyncGone => 5
            case _ => 6)
    case Acking(_, _) => 7
    case Fatal => 8
  }

  lemma ReaperKeepsQueue(s: State, e: Reap)
    requires ReaperEnabled(s, e)
    ensures ReaperStep(s, e).queue == if e.ReaperReceive? then s.queue[1..] else s.queue
  {
  }

  lemma DeletingAdvances(s: State, e: Reap)
    requires ReaperEnabled(s, e)
    requires e.ReaperDeleteThread? || e.ReaperDeleteSync? || e.ReaperUnregister? || e.ReaperFree?
    ensures ReaperPhase(ReaperStep(s, e)) > ReaperPhase(s)
  {
    match e
    case ReaperDeleteThread =>
    case ReaperDeleteSync =>
    case ReaperUnregister =>
    case ReaperFree =>
  }

  /** Every step of the reaper takes it further with its message, and the last makes it
      ready for the next; only the first takes a message from the queue, the oldest. */
  lemma ReaperStepsAdvance(run: seq<State>, i: nat, e: Reap)
    requires IsRun(run) && i < |run| && ReaperEnabled(run[i], e)
    ensures var s := ReaperStep(run[i], e);
      && (if e.ReaperAck? then s.reaper.Idle? else ReaperPhase(s) > ReaperPhase(run[i]))
      && s.queue == if e.ReaperReceive? then run[i].queue[1..] else run[i].queue
  {
    RunInv(run, i);
    ReaperKeepsQueue(run[i], e);
    match e
    case ReaperReceive =>
    case ReaperFind => ReaperKeepsInv(run[i], e);
    case ReaperPoll =>
    case ReaperAck =>
    case _ => DeletingAdvances(run[i], e);
  }

  /** What is in the control block itself, apart from its mutex and semaphore. */
  predicate SameMemory(b: Block, u: Block) {
    && u.id == b.id && u.detached == b.detached && u.finished == b.finished && u.queued == b.queued
    && u.ackSet == b.ackSet && u.listed == b.listed && u.frees == b.frees
  }

  predicate SameSync(b: Block, u: Block) { u.lock == b.lock && u.completion == b.completion }

  lemma UntouchedMemory(s: State, e: Own, b: Block)
    requires BlockEnabled(s, e, b) && !OwnerTouches(e)
    ensures SameMemory(b, BlockStep(s, e, b))
  {
    match e
    case Publish(_) =>
    case JoinStart(_) =>
    case DetachStart(_) =>
    case JoinCreateAck(_, _) =>
    case JoinGetAck(_) =>
    case JoinDeleteAck(_) =>
  }

  lemma UnusedSync(s: State, e: Own, b: Block)
    requires BlockEnabled(s, e, b) && !UsesSync(e)
    ensures SameSync(b, BlockStep(s, e, b))
  {
    match e
    case Register(_) =>
    case CreateThread(_, _) =>
    case Publish(_) =>
    case Withdraw(_) =>
    case Dispose(_) =>
    case WorkerFind(_) =>
    case WorkerSend(_) =>
    case WorkerExit(_) =>
    case JoinStart(_) =>
    case DetachStart(_) =>
    case JoinCreateAck(_, _) =>
    case JoinEnqueue(_) =>
    case JoinGetAck(_) =>
    case JoinDeleteAck(_) =>
    case DetachEnqueue(_) =>
  }

  lemma ReaperStepTouches(s: State, e: Reap, c: Cid)
    requires ReaperEnabled(s, e) && c in s.blocks
    ensures c in ReaperStep(s, e).blocks && SameSync(s.blocks[c], ReaperStep(s, e).blocks[c])
    ensures !ReaperTouches(s, e, c) ==> SameMemory(s.blocks[c], ReaperStep(s, e).blocks[c])
  {
  }

  /** Every step that changes a block counts as one that touches it, and every step that
      changes its mutex or its semaphore as one that uses them. */
  lemma UntouchedIsUnchanged(s: State, e: Event, c: Cid)
    requires Enabled(s, e) && c in s.blocks
    ensures c in Apply(s, e).blocks
    ensures !Touches(s, e, c) ==> SameMemory(s.blocks[c], Apply(s, e).blocks[c])
    ensures !(e.ByOwner? && e.own.c == c && UsesSync(e.own)) ==> SameSync(s.blocks[c], Apply(s, e).blocks[c])
  {
    match e
    case Allocate(_) =>
    case ByOwner(o) =>
      if !OwnerTouches(o) { UntouchedMemory(s, o, s.blocks[o.c]); }
      if !UsesSync(o) { UnusedSync(s, o, s.blocks[o.c]); }
    case ByReaper(r) => ReaperStepTouches(s, r, c);
  }

  ghost predicate IdsValid(s: State) {
    0 < s.nextId < ID_LIMIT && forall c :: c in s.blocks ==> IdValid(s.blocks[c])
  }

  predicate IdValid(b: Block) { b.creator.Allocated? || 0 < b.id < ID_LIMIT }

  lemma CreatorKeepsIds(s: State, e: Own, b: Block)
    requires BlockEnabled(s, e, b) && IdValid(b) && 0 < s.nextId < ID_LIMIT && IsCreators(e)
    ensures IdValid(BlockStep(s, e, b))
  {
  }

  lemma WorkerKeepsId(s: State, e: Own, b: Block)
    requires BlockEnabled(s, e, b) && IsWorkers(e)
    ensures BlockStep(s, e, b).id == b.id && BlockStep(s, e, b).creator == b.creator
  {
    match e
    case WorkerFind(_) =>
    case WorkerLock(_) =>
    case WorkerUnlock(_) =>
    case WorkerPost(_) =>
    case WorkerSend(_) =>
    case WorkerExit(_) =>
  }

  lemma StartKeepsId(s: State, e: Own, b: Block)
    requires BlockEnabled(s, e, b) && (e.JoinStart? || e.DetachStart?)
    ensures SameThread(b, BlockStep(s, e, b))
  {
  }

  lemma OwnStepKeepsIds(s: State, e: Own, b: Block)
    requires BlockEnabled(s, e, b) && IdValid(b) && 0 < s.nextId < ID_LIMIT
    ensures IdValid(BlockStep(s, e, b))
  {
    if IsCreators(e) {
      CreatorKeepsIds(s, e, b);
    } else if IsWorkers(e) {
      WorkerKeepsId(s, e, b);
    } else if e.JoinStart? || e.DetachStart? {
      StartKeepsId(s, e, b);
    } else {
      ClaimStepsAdvance(s, e, b);
    }
  }

  lemma ReaperKeepsIds(s: State, e: Reap, c: Cid)
    requires ReaperEnabled(s, e) && c in ReaperStep(s, e).blocks
    ensures c in s.blocks && ReaperStep(s, e).nextId == s.nextId
    ensures IdValid(s.blocks[c]) ==> IdValid(ReaperStep(s, e).blocks[c])
  {
  }

  lemma StepKeepsIds(s: State, e: Event)
    requires IdsValid(s) && Enabled(s, e)
    ensures IdsValid(Apply(s, e))
  {
    match e
    case Allocate(_) =>
    case ByOwner(o) => OwnStepKeepsIds(s, o, s.blocks[o.c]);
    case ByReaper(r) =>
      var s' := ReaperStep(s, r);
      if s'.blocks != map[] {
        forall c | c in s'.blocks
          ensures s'.nextId == s.nextId && IdValid(s'.blocks[c])
        {
          ReaperKeepsIds(s, r, c);
        }
      }
  }

  /** Ids are never 0, which stands for no id. */
  lemma {:induction false} IdsAreValid(run: seq<State>, i: nat)
    requires IsRun(run) && i < |run|
    ensures IdsValid(run[i])
  {
    if i > 0 {
      IdsAreValid(run, i - 1);
      assert StepAt(run, i - 1);
      var e :| Enabled(run[i - 1], e) && run[i] == Apply(run[i - 1], e);
      StepKeepsIds(run[i - 1], e);
    }
  }

  lemma NextIdCounts(n: nat)
    ensures NextId(n % (ID_LIMIT - 1) + 1) == (n + 1) % (ID_LIMIT - 1) + 1
  {
  }

  lemma StepCountsIds(s: State, e: Event)
    requires Enabled(s, e) && s.nextId == s.registered % (ID_LIMIT - 1) + 1
    ensures Apply(s, e).nextId == Apply(s, e).registered % (ID_LIMIT - 1) + 1
  {
    NextIdCounts(s.registered);
    match e
    case Allocate(_) =>
    case ByOwner(_) =>
    case ByReaper(_) =>
  }

  /** The ids go round all the values from 1 to 2^32 - 1 in turn. */
  lemma {:induction false} IdsGoRound(run: seq<State>, i: nat)
    requires IsRun(run) && i < |run|
    ensures run[i].nextId == run[i].registered % 0xFFFF_FFFF + 1
  {
    if i > 0 {
      IdsGoRound(run, i - 1);
      assert StepAt(run, i - 1);
      var e :| Enabled(run[i - 1], e) && run[i] == Apply(run[i - 1], e);
      StepCountsIds(run[i - 1], e);
    }
  }

  // ----- Runs

  /** Block 0 alone, with this registry, queue and reaper. */
  function Alone(b: Block, registry: seq<Cid>, queue: seq<Message>): State {
    State(map[0 := b], registry, queue, Idle, 2, 1, false)
  }

  lemma Continues(run: seq<State>, s: State, e: Own, s': State) returns (longer: seq<State>)
    requires IsRun(run) && run[|run| - 1] == s && OwnEnabled(s, e) && OwnStep(s, e) == s'
    ensures IsRun(longer) && longer[|longer| - 1] == s'
  {
    longer := StepContinues(run, ByOwner(e));
  }

  lemma {:induction false} ReaperContinues(run: seq<State>, es: seq<Reap>) returns (longer: seq<State>)
    requires IsRun(run) && ReaperCan(run[|run| - 1], es)
    ensures IsRun(longer) && longer[|longer| - 1] == ReaperDoes(run[|run| - 1], es)
    decreases |es|
  {
    longer := run;
    if es != [] {
      longer := StepContinues(run, ByReaper(es[0]));
      longer := ReaperContinues(longer, es[1..]);
    }
  }

  /** The reaper serves the only message of the only block. */
  lemma ReaperServes(run: seq<State>, b: Block) returns (longer: seq<State>)
    requires IsRun(run) && run[|run| - 1] == Alone(b, [0], [Message(1, 0)]) && b.worker.Completed?
    ensures IsRun(longer) && longer[|longer| - 1] == Alone(Cleaned(b), [], [])
  {
    ReaperTakesUp(run, |run| - 1);
    longer := StepContinues(run, ByReaper(ReaperReceive));
    longer := StepContinues(longer, ByReaper(ReaperFind));
    var u := longer[|longer| - 1];
    assert u == Held(b, Holding(0));
    ReaperDeletes(u, 0);
    longer := ReaperContinues(longer, DELETIONS);
    longer := ReaperFinishes(longer, b);
  }

  function Held(b: Block, reaper: Reaper): State {
    State(map[0 := b.(stage := Found)], [0], [], reaper, 2, 1, false)
  }

  lemma ReaperFinishes(run: seq<State>, b: Block) returns (longer: seq<State>)
    requires IsRun(run)
    requires run[|run| - 1] == Put(Held(b, Holding(0)), 0, b.(stage := SyncGone), Deleting(0, b.ackSet))
    ensures IsRun(longer) && longer[|longer| - 1] == Alone(Cleaned(b), [], [])
  {
    var v := run[|run| - 1];
    ReaperReleases(v, 0);
    longer := ReaperContinues(run, RELEASE);
    CleanedAlone(v, b);
  }

  lemma SameCleaned(b: Block, g: Stage)
    ensures Cleaned(b.(stage := g)) == Cleaned(b)
  {
    var a := b.(stage := g);
    if b.ackSet && b.ack.AckLive? {
      assert Cleaned(a).ack == Cleaned(b).ack;
    }
  }

  lemma CleanedAlone(v: State, b: Block)
    requires v == Put(Held(b, Holding(0)), 0, b.(stage := SyncGone), Deleting(0, b.ackSet))
    ensures Put(v.(registry := Without(v.registry, 0)), 0, Cleaned(v.blocks[0]), Idle) == Alone(Cleaned(b), [], [])
  {
    assert v.blocks[0] == b.(stage := SyncGone);
    SameCleaned(b, SyncGone);
    assert v.blocks[0 := Cleaned(b)] == map[0 := Cleaned(b)];
    assert [0][1..] == [];
  }

  const TAKEN := POSTED.(claim := JoinTaken, completion := 0, taken := true)
  const AWAITING := TAKEN.(claim := JoinAwait, ack := AckLive(0), ackSet := true, queued := true, stage := InQueue,
                           sends := 1)

  /** The join of block 0 has asked for cleanup. */
  lemma AwaitingRun() returns (run: seq<State>)
    ensures IsRun(run) && run[|run| - 1] == Alone(AWAITING, [0], [Message(1, 0)])
  {
    run := PostedRun();
    run := OneContinues(run, POSTED.(claim := JoinWait), JoinTake(0));
    run := OneContinues(run, TAKEN, JoinCreateAck(0, true));
    run := OneContinues(run, TAKEN.(claim := JoinReady, ack := AckLive(0)), JoinLock(0));
    run := SendingRun(run);
  }

  lemma SendingRun(before: seq<State>) returns (run: seq<State>)
    requires IsRun(before)
    requires before[|before| - 1] == One(AWAITING.(claim := JoinMarked, lock := ByClaim, stage := Sending, sends := 0))
    ensures IsRun(run) && run[|run| - 1] == Alone(AWAITING, [0], [Message(1, 0)])
  {
    var b := AWAITING.(claim := JoinMarked, lock := ByClaim, stage := Sending, sends := 0);
    run := OneContinues(before, b, JoinUnlock(0));
    var s := Alone(AWAITING.(claim := JoinSend, stage := Sending, sends := 0), [0], []);
    assert s.blocks[0 := AWAITING] == map[0 := AWAITING];
    run := Continues(run, s, JoinEnqueue(0), Alone(AWAITING, [0], [Message(1, 0)]));
  }

  /** A thread that is created, runs, finishes and is joined: the join returns 0 and the
      block is gone. */
  lemma JoinedRun() returns (run: seq<State>)
    ensures IsRun(run) && var s := run[|run| - 1];
      && s.blocks.Keys == {0} && s.blocks[0].claim == JoinDone(0) && s.blocks[0].frees == 1
      && s.registry == [] && s.queue == [] && s.reaper.Idle?
  {
    run := AwaitingRun();
    var b := AWAITING.(worker := Completed(false));
    var s := run[|run| - 1];
    assert s.blocks[0 := b] == map[0 := b];
    run := Continues(run, s, WorkerExit(0), Alone(b, [0], [Message(1, 0)]));
    run := ReaperServes(run, b);
    run := JoinReturns(run, Cleaned(b));
  }

  lemma JoinReturns(before: seq<State>, b: Block) returns (run: seq<State>)
    requires IsRun(before) && before[|before| - 1] == Alone(b, [], []) && b.claim.JoinAwait? && b.ack == AckLive(1)
    ensures IsRun(run) && run[|run| - 1] == Alone(b.(claim := JoinDone(0), ack := AckDeleted), [], [])
  {
    var c, d := b.(claim := JoinClosing, ack := AckLive(0)), b.(claim := JoinDone(0), ack := AckDeleted);
    var s := before[|before| - 1];
    assert s.blocks[0 := c] == map[0 := c] && map[0 := c][0 := d] == map[0 := d];
    run := Continues(before, s, JoinGetAck(0), Alone(c, [], []));
    run := Continues(run, Alone(c, [], []), JoinDeleteAck(0), Alone(d, [], []));
  }

  const DETACHED := RUNNING.(claim := DetachDone(0, false), detached := true)
  const CLEANING := DETACHED.(worker := Sent, finished := true, queued := true, completion := 1, stage := InQueue,
                              sends := 1)

  /** Block 0 is detached while its thread runs. */
  lemma DetachedRun() returns (run: seq<State>)
    ensures IsRun(run) && run[|run| - 1] == One(DETACHED)
  {
    run := RunningRun();
    run := OneContinues(run, RUNNING, DetachStart(0));
    run := OneContinues(run, RUNNING.(claim := DetachWait), DetachLock(0));
    run := OneContinues(run, DETACHED.(claim := DetachMarked(false), lock := ByClaim), DetachUnlock(0));
  }

  /** The thread finishes and asks for the cleanup itself. */
  lemma CleaningRun() returns (run: seq<State>)
    ensures IsRun(run) && run[|run| - 1] == Alone(CLEANING, [0], [Message(1, 0)])
  {
    run := DetachedRun();
    run := OneContinues(run, DETACHED, WorkerLock(0));
    var b := CLEANING.(worker := Flagged(true), completion := 0, lock := ByWorker, stage := Sending, sends := 0);
    run := OneContinues(run, b, WorkerUnlock(0));
    run := OneContinues(run, b.(worker := Unlocked(true), lock := Free), WorkerPost(0));
    run := SelfSendingRun(run);
  }

  lemma SelfSendingRun(before: seq<State>) returns (run: seq<State>)
    requires IsRun(before)
    requires before[|before| - 1] == One(CLEANING.(worker := Posted(true), stage := Sending, sends := 0))
    ensures IsRun(run) && run[|run| - 1] == Alone(CLEANING, [0], [Message(1, 0)])
  {
    var s := before[|before| - 1];
    assert s.blocks[0 := CLEANING] == map[0 := CLEANING];
    run := Continues(before, s, WorkerSend(0), Alone(CLEANING, [0], [Message(1, 0)]));
  }

  /** A thread that is detached and then finishes: its block is reclaimed. */
  lemma DetachedThreadIsReclaimed() returns (run: seq<State>)
    ensures IsRun(run) && var s := run[|run| - 1];
      && s.blocks.Keys == {0} && s.blocks[0].claim == DetachDone(0, false) && s.blocks[0].frees == 1
      && s.blocks[0].ack == NoAck && s.registry == [] && s.queue == [] && s.reaper.Idle?
  {
    run := CleaningRun();
    var b := CLEANING.(worker := Completed(true));
    var s := run[|run| - 1];
    assert s.blocks[0 := b] == map[0 := b];
    run := Continues(run, s, WorkerExit(0), Alone(b, [0], [Message(1, 0)]));
    run := ReaperServes(run, b);
  }

  /** A thread that could not be created: its block is unregistered and freed by its
      creator. */
  lemma FailedCreationIsUndone() returns (run: seq<State>)
    ensures IsRun(run) && var s := run[|run| - 1];
      && s.blocks.Keys == {0} && s.blocks[0].creator.Disposed? && s.blocks[0].frees == 1
      && s.registry == [] && s.queue == [] && s.reaper.Idle?
  {
    run := RegisteredRun();
    run := OneContinues(run, REGISTERED, CreateThread(0, false));
    var b := REGISTERED.(creator := Withdrawn, listed := false);
    var d := b.(creator := Disposed, stage := Freed, frees := 1);
    var s := run[|run| - 1];
    assert s.blocks[0 := b] == map[0 := b] && map[0 := b][0 := d] == map[0 := d];
    assert [0][1..] == [];
    run := Continues(run, s, Withdraw(0), Alone(b, [], []));
    run := Continues(run, Alone(b, [], []), Dispose(0), Alone(d, [], []));
  }
}
