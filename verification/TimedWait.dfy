/**
 Timed waits and sleeps.  The clock, the wait primitive and the duration of a
 kernel sleep are given as functions of the call number, so every statement
 holds for every behaviour of the kernel.
 */
module TimedWait {
  import opened Arithmetic

  const NANOSECONDS := 1_000_000_000
  const TICKS_PER_SECOND := 1000
  const ULONG_MAX := 0xFFFF_FFFF
  const TX_NO_WAIT := 0
  const TX_WAIT_FOREVER := ULONG_MAX
  const MAX_FINITE_WAIT := TX_WAIT_FOREVER - 1
  const I64_MAX := 0x7FFF_FFFF_FFFF_FFFF
  const U64 := 0x1_0000_0000_0000_0000

  /** The results 0, ETIMEDOUT and EINVAL. */
  datatype WaitResult = Acquired | Expired | Invalid

  // ----- Durations in ticks

  function DurationToTicks(nanoseconds: nat): nat {
    if nanoseconds == 0 then TX_NO_WAIT
    else
      var seconds := nanoseconds / NANOSECONDS;
      var rest := nanoseconds % NANOSECONDS;
      if seconds > ULONG_MAX / TICKS_PER_SECOND then MAX_FINITE_WAIT
      else
        Min(seconds * TICKS_PER_SECOND + (rest * TICKS_PER_SECOND + NANOSECONDS - 1) / NANOSECONDS, MAX_FINITE_WAIT)
  }

  /** The smallest number of ticks that covers the duration, capped below
      "forever"; a positive duration never becomes "do not wait". */
  lemma DurationToTicksIsCeiling(nanoseconds: nat)
    ensures DurationToTicks(nanoseconds) == Min(CeilDiv(nanoseconds * TICKS_PER_SECOND, NANOSECONDS), MAX_FINITE_WAIT)
    ensures nanoseconds > 0 ==> TX_NO_WAIT < DurationToTicks(nanoseconds) < TX_WAIT_FOREVER
  {
    SplitScaleCeil(nanoseconds, NANOSECONDS, TICKS_PER_SECOND);
    CeilUpper(nanoseconds * TICKS_PER_SECOND, NANOSECONDS, 0);
  }

  // ----- Deadlines

  datatype Deadline = NoDeadline | At(seconds: int, nanoseconds: int)

  function TimespecToNanoseconds(d: Deadline): int
    requires d.At?
  {
    if d.seconds >= I64_MAX / NANOSECONDS then I64_MAX
    else if d.seconds < 0 then -1
    else d.seconds * NANOSECONDS +
         (if d.nanoseconds < 0 then 0 else Min(d.nanoseconds, NANOSECONDS - 1))
  }

  function DeadlineWaitTicks(d: Deadline, now: int): nat {
    if d.NoDeadline? then TX_NO_WAIT
    else if TimespecToNanoseconds(d) <= now then TX_NO_WAIT
    else
      DurationToTicksIsCeiling(TimespecToNanoseconds(d) - now);
      Min(DurationToTicks(TimespecToNanoseconds(d) - now), MAX_FINITE_WAIT)
  }

  /** The second of a deadline counts in full and its nanoseconds are clamped to one
      second.  A negative second lies before every clock reading, and one whose end does
      not fit 64 bits becomes the last representable moment. */
  lemma DeadlinesAre(d: Deadline)
    requires d.At?
    ensures d.seconds < 0 ==> TimespecToNanoseconds(d) == -1
    ensures d.seconds > 9_223_372_035 ==> TimespecToNanoseconds(d) == 0x7FFF_FFFF_FFFF_FFFF
    ensures 0 <= d.seconds <= 9_223_372_035 && 0 <= d.nanoseconds <= 999_999_999 ==>
      TimespecToNanoseconds(d) == d.seconds * 1_000_000_000 + d.nanoseconds
    ensures 0 <= d.seconds <= 9_223_372_035 && d.nanoseconds < 0 ==>
      TimespecToNanoseconds(d) == d.seconds * 1_000_000_000
    ensures 0 <= d.seconds <= 9_223_372_035 && d.nanoseconds > 999_999_999 ==>
      TimespecToNanoseconds(d) == d.seconds * 1_000_000_000 + 999_999_999
    ensures TimespecToNanoseconds(d) <= 0x7FFF_FFFF_FFFF_FFFF
  {
  }

  /** Whether the deadline lies in the past at this clock reading. */
  predicate Reached(d: Deadline, now: int) {
    d.NoDeadline? || TimespecToNanoseconds(d) <= now
  }

  /** The wait is a no-wait attempt exactly when the deadline has been reached,
      and otherwise finite and long enough unless it is capped. */
  lemma DeadlineWaitIsFinite(d: Deadline, now: int)
    ensures DeadlineWaitTicks(d, now) == TX_NO_WAIT <==> Reached(d, now)
    ensures DeadlineWaitTicks(d, now) <= MAX_FINITE_WAIT
    ensures !Reached(d, now) && DeadlineWaitTicks(d, now) < MAX_FINITE_WAIT ==>
      DeadlineWaitTicks(d, now) * NANOSECONDS >= (TimespecToNanoseconds(d) - now) * TICKS_PER_SECOND >
      (DeadlineWaitTicks(d, now) - 1) * NANOSECONDS
    ensures !Reached(d, now) && DeadlineWaitTicks(d, now) == MAX_FINITE_WAIT ==>
      (TimespecToNanoseconds(d) - now) * TICKS_PER_SECOND > (MAX_FINITE_WAIT - 1) * NANOSECONDS
  {
    if !Reached(d, now) {
      var remaining := TimespecToNanoseconds(d) - now;
      DurationToTicksIsCeiling(remaining);
      CeilUpper(remaining * TICKS_PER_SECOND, NANOSECONDS, CeilDiv(remaining * TICKS_PER_SECOND, NANOSECONDS));
    }
  }

  datatype Status = Success | NoInstance | NotAvailable | OtherError

  predicate TimedOut(s: Status) { s.NoInstance? || s.NotAvailable? }

  /** The k-th attempt of a wait whose k-th clock reading asks for ticks(k). */
  function Attempt(ticks: nat -> nat, wait: (nat, nat) -> Status, k: nat): Status { wait(k, ticks(k)) }

  /** The retry loop of wait_until: only a timed-out wait with time left is
      repeated, and an attempt without time left is the last. */
  method RetryLoop(ticks: nat -> nat, wait: (nat, nat) -> Status, ghost left: nat -> int)
    returns (result: WaitResult, last: nat)
    requires forall k: nat :: ticks(k) != TX_NO_WAIT ==> left(k) > 0
    requires forall k: nat :: TimedOut(Attempt(ticks, wait, k)) && ticks(k) != TX_NO_WAIT ==> left(k + 1) < left(k)
    ensures forall k :: 0 <= k < last ==> ticks(k) != TX_NO_WAIT && TimedOut(Attempt(ticks, wait, k))
    ensures result.Acquired? <==> Attempt(ticks, wait, last).Success?
    ensures result.Expired? <==> ticks(last) == TX_NO_WAIT && !Attempt(ticks, wait, last).Success?
    ensures result.Invalid? <==> ticks(last) != TX_NO_WAIT && Attempt(ticks, wait, last).OtherError?
  {
    last := 0;
    while true
      invariant forall k :: 0 <= k < last ==> ticks(k) != TX_NO_WAIT && TimedOut(Attempt(ticks, wait, k))
      decreases if ticks(last) == TX_NO_WAIT then 0 else left(last)
    {
      if ticks(last) == TX_NO_WAIT {
        var final := wait(last, TX_NO_WAIT);
        return if final.Success? then Acquired else Expired, last;
      }
      var status := wait(last, ticks(last));
      assert status == Attempt(ticks, wait, last);
      if status.Success? {
        return Acquired, last;
      }
      if !status.NoInstance? && !status.NotAvailable? {
        return Invalid, last;
      }
      last := last + 1;
    }
  }

  /** Every wait that times out leaves the clock at a later reading. */
  ghost predicate ClockAdvances(clock: nat -> int, wait: (nat, nat) -> Status) {
    forall k: nat, ticks: nat :: TimedOut(wait(k, ticks)) ==> clock(k) < clock(k + 1)
  }

  /** wait_until.  It terminates, and a timeout is reported only after a last
      no-wait attempt failed with the clock at or past the deadline. */
  method WaitUntil(d: Deadline, clock: nat -> int, wait: (nat, nat) -> Status) returns (result: WaitResult, last: nat)
    requires ClockAdvances(clock, wait)
    ensures forall k :: 0 <= k < last ==> !Reached(d, clock(k)) && TimedOut(wait(k, DeadlineWaitTicks(d, clock(k))))
    ensures result.Acquired? <==> wait(last, DeadlineWaitTicks(d, clock(last))).Success?
    ensures result.Expired? <==> Reached(d, clock(last)) && !wait(last, TX_NO_WAIT).Success?
    ensures result.Invalid? <==>
      !Reached(d, clock(last)) && wait(last, DeadlineWaitTicks(d, clock(last))).OtherError?
  {
    var ticks := (k: nat) => DeadlineWaitTicks(d, clock(k));
    ghost var left := (k: nat) => if d.NoDeadline? then 0 else TimespecToNanoseconds(d) - clock(k);
    forall k: nat
      ensures ticks(k) == TX_NO_WAIT <==> Reached(d, clock(k))
    {
      DeadlineWaitIsFinite(d, clock(k));
    }
    forall k: nat | TimedOut(Attempt(ticks, wait, k)) && ticks(k) != TX_NO_WAIT
      ensures left(k + 1) < left(k)
    {
      assert TimedOut(wait(k, ticks(k)));
    }
    result, last := RetryLoop(ticks, wait, left);
  }

  // ----- Sleeping

  function Sum(s: seq<nat>): nat {
    if s == [] then 0 else Sum(s[..|s| - 1]) + s[|s| - 1]
  }

  lemma SumSnoc(s: seq<nat>, x: nat)
    ensures Sum(s + [x]) == Sum(s) + x
  {
    assert (s + [x])[..|s|] == s;
  }

  /** A kernel sleep of n ticks lasts at least n - 1 full periods. */
  ghost predicate SleepsLongEnough(lasts: (nat, nat) -> nat) {
    forall k: nat, n: nat :: n > 0 ==> lasts(k, n) * TICKS_PER_SECOND >= (n - 1) * NANOSECONDS
  }

  /** The time that the kernel sleeps for these chunks last, one tick more each. */
  function Slept(lasts: (nat, nat) -> nat, chunks: seq<nat>): nat {
    if chunks == [] then 0
    else Slept(lasts, chunks[..|chunks| - 1]) + lasts(|chunks| - 1, chunks[|chunks| - 1] + 1)
  }

  lemma SleptSnoc(lasts: (nat, nat) -> nat, chunks: seq<nat>, chunk: nat)
    ensures Slept(lasts, chunks + [chunk]) == Slept(lasts, chunks) + lasts(|chunks|, chunk + 1)
  {
    assert (chunks + [chunk])[..|chunks|] == chunks;
  }

  /** Sleeping in chunks, one tick more each, is never shorter than their sum. */
  lemma {:induction false} ChunksSuffice(lasts: (nat, nat) -> nat, chunks: seq<nat>)
    requires SleepsLongEnough(lasts)
    ensures Slept(lasts, chunks) * TICKS_PER_SECOND >= Sum(chunks) * NANOSECONDS
  {
    if chunks != [] {
      var n := |chunks| - 1;
      ChunksSuffice(lasts, chunks[..n]);
      assert lasts(n, chunks[n] + 1) * TICKS_PER_SECOND >= (chunks[n] + 1 - 1) * NANOSECONDS;
    }
  }

  function SleepTicks(nanoseconds: nat): nat {
    nanoseconds / NANOSECONDS * TICKS_PER_SECOND +
    (nanoseconds % NANOSECONDS * TICKS_PER_SECOND + NANOSECONDS - 1) / NANOSECONDS
  }

  /** For every 64-bit duration the tick count covers it and fits 64 bits. */
  lemma SleepTicksCover(nanoseconds: nat)
    requires nanoseconds < U64
    ensures SleepTicks(nanoseconds) == CeilDiv(nanoseconds * TICKS_PER_SECOND, NANOSECONDS) < U64
    ensures SleepTicks(nanoseconds) * NANOSECONDS >= nanoseconds * TICKS_PER_SECOND
  {
    SplitScaleCeil(nanoseconds, NANOSECONDS, TICKS_PER_SECOND);
    CeilUpper(nanoseconds * TICKS_PER_SECOND, NANOSECONDS, SleepTicks(nanoseconds));
  }

  /** The chunked kernel sleeps: finite calls whose chunks add up. */
  method SleepInChunks(ticks: nat, lasts: (nat, nat) -> nat) returns (chunks: seq<nat>, total: nat)
    ensures Sum(chunks) == ticks && total == Slept(lasts, chunks)
    ensures forall i :: 0 <= i < |chunks| ==> 0 < chunks[i] && chunks[i] + 1 <= MAX_FINITE_WAIT
  {
    chunks, total := [], 0;
    var remaining := ticks;
    while remaining != 0
      invariant 0 <= remaining <= ticks && Sum(chunks) + remaining == ticks
      invariant forall i :: 0 <= i < |chunks| ==> 0 < chunks[i] && chunks[i] + 1 <= MAX_FINITE_WAIT
      invariant total == Slept(lasts, chunks)
    {
      var chunk := Min(remaining, MAX_FINITE_WAIT - 1);
      var slept := lasts(|chunks|, chunk + 1);
      SumSnoc(chunks, chunk);
      SleptSnoc(lasts, chunks, chunk);
      chunks := chunks + [chunk];
      total := total + slept;
      remaining := remaining - chunk;
    }
  }

  /** sleep_for.  The chunks add up to the rounded-up duration, every kernel call
      is finite, and if n + 1 ticks last at least n periods the time slept is never
      less than the time asked for. */
  method SleepFor(nanoseconds: nat, lasts: (nat, nat) -> nat) returns (chunks: seq<nat>, total: nat)
    requires nanoseconds < U64
    ensures Sum(chunks) == CeilDiv(nanoseconds * TICKS_PER_SECOND, NANOSECONDS)
    ensures forall i :: 0 <= i < |chunks| ==> 0 < chunks[i] && chunks[i] + 1 <= MAX_FINITE_WAIT
    ensures total == Slept(lasts, chunks) && (SleepsLongEnough(lasts) ==> total >= nanoseconds)
  {
    SleepTicksCover(nanoseconds);
    if nanoseconds == 0 {
      return [], 0;
    }
    chunks, total := SleepInChunks(SleepTicks(nanoseconds), lasts);
    if SleepsLongEnough(lasts) {
      ChunksSuffice(lasts, chunks);
    }
  }
}
