/**
 The simulated hardware timer of the Linux build: a modular counter derived from
 the monotonic clock.
 */
module LinuxTimer {
  import opened Arithmetic

  const NANOSECONDS := 1_000_000_000
  const U32 := 0x1_0000_0000
  const U64 := 0x1_0000_0000_0000_0000
  const TICK_MAX := U32 - 1

  /** Whole ticks in a stretch of time. */
  function Ticks(elapsed: nat, frequency: nat): int { elapsed * frequency / NANOSECONDS }

  /** The reduced computation of counterAt, in the order of the source. */
  function CounterAfter(counter: nat, period: nat, frequency: nat, elapsed: nat): int
    requires period > 0
  {
    var seconds, remainder := elapsed / NANOSECONDS, elapsed % NANOSECONDS;
    var wholeTicks := (seconds % period) * (frequency % period) % period;
    var fractionalTicks := remainder * frequency / NANOSECONDS % period;
    (counter + (wholeTicks + fractionalTicks) % period) % period
  }

  /** The counter is the start value plus the whole ticks since, modulo the
      period, for every 64-bit elapsed time, and no product overflows. */
  lemma CounterAfterIsExact(counter: nat, period: nat, frequency: nat, elapsed: nat)
    requires 0 < period <= U32 && frequency < U32 && counter < U32 && elapsed < U64
    ensures CounterAfter(counter, period, frequency, elapsed) == (counter + Ticks(elapsed, frequency)) % period
    ensures (elapsed / NANOSECONDS % period) * (frequency % period) < U64
    ensures elapsed % NANOSECONDS * frequency < U64
  {
    var seconds, remainder := elapsed / NANOSECONDS, elapsed % NANOSECONDS;
    assert Ticks(elapsed, frequency) == seconds * frequency + remainder * frequency / NANOSECONDS by {
      SplitScale(elapsed, NANOSECONDS, frequency);
    }
    ReducedSum(counter, seconds, frequency, remainder * frequency / NANOSECONDS, period);
    NoOverflow(seconds, remainder, frequency, period);
  }

  /** Reducing at every step is reducing once. */
  lemma ReducedSum(counter: int, seconds: int, frequency: int, fraction: int, period: int)
    requires period > 0
    ensures var whole := (seconds % period) * (frequency % period) % period;
      (counter + (whole + fraction % period) % period) % period == (counter + (seconds * frequency + fraction)) % period
  {
    ModOfProduct(seconds, frequency, period);
    ModOfSum(seconds * frequency, fraction, period);
    ModOfSum(seconds * frequency + fraction, counter, period);
  }

  lemma NoOverflow(seconds: nat, remainder: nat, frequency: nat, period: nat)
    requires 0 < period <= U32 && frequency < U32 && remainder < NANOSECONDS
    ensures (seconds % period) * (frequency % period) < U64 && remainder * frequency < U64
  {
    DivMod(seconds, period);
    DivMod(frequency, period);
    ProductBound(seconds % period, frequency % period);
    MulMonotone(remainder, NANOSECONDS, frequency);
  }

  lemma ProductBound(a: nat, b: nat)
    requires a < U32 && b < U32
    ensures a * b < U64
  {
    MulMonotone(a, U32 - 1, b);
    MulMonotone(b, U32 - 1, U32 - 1);
  }

  /** Splitting a stretch of time loses at most one tick. */
  lemma SplitLosesAtMostOne(a: nat, b: nat, frequency: nat)
    ensures Ticks(a + b, frequency) - 1 <= Ticks(a, frequency) + Ticks(b, frequency) <= Ticks(a + b, frequency)
  {
    var x, y := a * frequency, b * frequency;
    assert (a + b) * frequency == x + y;
  }

  /** Capturing and restarting the counter at any instant loses at most one tick. */
  lemma RestartLosesAtMostOne(counter: nat, period: nat, frequency: nat, a: nat, b: nat)
    requires 0 < period <= U32 && frequency < U32 && counter < U32 && a + b < U64
    ensures var captured := CounterAfter(counter, period, frequency, a);
      && 0 <= captured < period
      && var restarted := CounterAfter(captured, period, frequency, b);
         var undisturbed := CounterAfter(counter, period, frequency, a + b);
         undisturbed == restarted || undisturbed == (restarted + 1) % period
  {
    var captured := CounterAfter(counter, period, frequency, a);
    CounterAfterIsExact(counter, period, frequency, a);
    DivMod(counter + Ticks(a, frequency), period);
    CounterAfterIsExact(captured, period, frequency, b);
    CounterAfterIsExact(counter, period, frequency, a + b);
    SplitLosesAtMostOne(a, b, frequency);
    ModOfSum(counter + Ticks(a, frequency), Ticks(b, frequency), period);
    ModOfSum(counter + Ticks(a, frequency) + Ticks(b, frequency), 1, period);
  }

  // ----- Overflow delay

  function DelayFor(ticks: nat, frequency: nat): int
    requires frequency > 0
  {
    (ticks * NANOSECONDS + frequency - 1) / frequency
  }

  /** The delay is the shortest time in which that many ticks are sure to pass. */
  lemma DelayIsLeast(ticks: nat, frequency: nat, d: nat)
    requires frequency > 0
    ensures Ticks(d, frequency) >= ticks <==> d >= DelayFor(ticks, frequency)
  {
    CeilUpper(ticks * NANOSECONDS, frequency, d);
    DivLower(d * frequency, NANOSECONDS, ticks);
  }

  /** After the computed delay the counter has passed its overflow. */
  lemma DelayReachesOverflow(counter: nat, period: nat, frequency: nat, elapsed: nat)
    requires 0 < period <= U32 && 0 < frequency < U32 && counter < U32 && elapsed < U64
    ensures var now := CounterAfter(counter, period, frequency, elapsed);
      && 0 < period - now <= period
      && DelayFor(period - now, frequency) < U64
      && var later := elapsed + DelayFor(period - now, frequency);
         later >= elapsed && (counter + Ticks(later, frequency)) / period >
                             (counter + Ticks(elapsed, frequency)) / period
  {
    var now := CounterAfter(counter, period, frequency, elapsed);
    CounterAfterIsExact(counter, period, frequency, elapsed);
    var total := counter + Ticks(elapsed, frequency);
    DivMod(total, period);
    var delay := DelayFor(period - now, frequency);
    DelayFits(period - now, frequency);
    DelayIsLeast(period - now, frequency, delay);
    SplitLosesAtMostOne(elapsed, delay, frequency);
    PassesMultiple(total, counter + Ticks(elapsed + delay, frequency), period);
  }

  /** Adding what is missing to the next multiple raises the quotient. */
  lemma PassesMultiple(x: int, y: int, m: int)
    requires m > 0 && y >= x + (m - x % m)
    ensures y / m > x / m
  {
    DivMod(x, m);
    assert (x / m + 1) * m == x / m * m + m;
    DivLower(y, m, x / m + 1);
  }

  lemma DelayFits(ticks: nat, frequency: nat)
    requires ticks <= U32 && 0 < frequency < U32
    ensures 0 <= DelayFor(ticks, frequency) < U64 && ticks * NANOSECONDS + frequency - 1 < U64
  {
    DivLower(ticks * NANOSECONDS + frequency - 1, frequency, 0);
    DivLower(ticks * NANOSECONDS + frequency - 1, frequency, DelayFor(ticks, frequency));
    MulMonotone(1, frequency, DelayFor(ticks, frequency));
  }

  // ----- Durations

  function DurationToTicks(nanoseconds: int, frequency: nat): int {
    if nanoseconds <= 0 || frequency == 0 then 0
    else
      var seconds, remainder := nanoseconds / NANOSECONDS, nanoseconds % NANOSECONDS;
      if seconds > TICK_MAX / frequency then TICK_MAX
      else
        var wholeTicks := seconds * frequency;
        var fractionalTicks := (remainder * frequency + NANOSECONDS - 1) / NANOSECONDS;
        if fractionalTicks > TICK_MAX - wholeTicks then TICK_MAX else wholeTicks + fractionalTicks
  }

  lemma DurationToTicksIsCeiling(nanoseconds: int, frequency: nat)
    requires nanoseconds > 0 && 0 < frequency < U32
    ensures DurationToTicks(nanoseconds, frequency) == Min(CeilDiv(nanoseconds * frequency, NANOSECONDS), TICK_MAX)
  {
    var seconds, remainder := nanoseconds / NANOSECONDS, nanoseconds % NANOSECONDS;
    SplitScaleCeil(nanoseconds, NANOSECONDS, frequency);
    DivLower(TICK_MAX, frequency, seconds);
    CeilUpper(remainder * frequency, NANOSECONDS, -1);
  }

  /** The ticks of a duration are at least one and last at least as long. */
  lemma PeriodCovers(nanoseconds: int, frequency: nat)
    requires nanoseconds > 0 && 0 < frequency < U32
    ensures var ticks := CeilDiv(nanoseconds * frequency, NANOSECONDS);
      ticks >= 1 && DelayFor(ticks, frequency) >= nanoseconds
  {
    var ticks := CeilDiv(nanoseconds * frequency, NANOSECONDS);
    MulMonotone(1, nanoseconds, frequency);
    CeilUpper(nanoseconds * frequency, NANOSECONDS, 0);
    CeilUpper(nanoseconds * frequency, NANOSECONDS, ticks);
    CeilUpper(ticks * NANOSECONDS, frequency, nanoseconds - 1);
    MulMonotone(nanoseconds - 1, nanoseconds, frequency);
  }

  function ElapsedTime(counter: nat, frequency: nat): int {
    if frequency == 0 then 0 else counter * NANOSECONDS / frequency
  }

  lemma InverseBounds(counter: nat, frequency: nat)
    requires 0 < frequency <= NANOSECONDS && counter > 0
    ensures var d := ElapsedTime(counter, frequency);
      d > 0 && (counter - 1) * NANOSECONDS < d * frequency <= counter * NANOSECONDS
  {
    DivMod(counter * NANOSECONDS, frequency);
    MulMonotone(frequency, NANOSECONDS, counter);
    DivLower(counter * NANOSECONDS, frequency, counter);
  }

  /** Converting a counter value to time and back gives the value again for every
      counter value exactly when a tick is at least a nanosecond long. */
  lemma ConversionInvertsIff(frequency: nat)
    requires 0 < frequency < U32
    ensures (forall c: nat :: c < U32 ==> DurationToTicks(ElapsedTime(c, frequency), frequency) == c)
       <==> frequency <= NANOSECONDS
  {
    if frequency <= NANOSECONDS {
      forall c: nat | c < U32
        ensures DurationToTicks(ElapsedTime(c, frequency), frequency) == c
      {
        ConversionInverts(c, frequency);
      }
    } else {
      DivModUnique(NANOSECONDS, frequency, 0, NANOSECONDS);
      assert DurationToTicks(ElapsedTime(1, frequency), frequency) == 0;
    }
  }

  lemma ConversionInverts(counter: nat, frequency: nat)
    requires 0 < frequency <= NANOSECONDS && counter < U32
    ensures DurationToTicks(ElapsedTime(counter, frequency), frequency) == counter
  {
    if counter == 0 {
      DivModUnique(0, frequency, 0, 0);
    } else {
      var d := ElapsedTime(counter, frequency);
      InverseBounds(counter, frequency);
      DurationToTicksIsCeiling(d, frequency);
      CeilUpper(d * frequency, NANOSECONDS, counter);
      CeilUpper(d * frequency, NANOSECONDS, counter - 1);
    }
  }

  // ----- The driver object

  class Timer {
    const inputHz: nat
    var prescaler: nat
    var autoReload: nat
    var counter: nat
    var startedAt: nat
    var running: bool
    var interruptEnabled: bool
    var version: nat

    ghost predicate Valid()
      reads this
    {
      inputHz < U32 && prescaler < U32 && autoReload < U32 && counter < U32 && startedAt < U64
    }

    constructor (inputHz: nat, prescaler: nat, autoReload: nat, now: nat)
      requires inputHz < U32 && prescaler < U32 && autoReload < U32 && now < U64
      ensures Valid() && counter == 0 && !running && startedAt == now && !interruptEnabled && version == 0
      ensures this.inputHz == inputHz && this.prescaler == prescaler && this.autoReload == autoReload
    {
      this.inputHz, this.prescaler, this.autoReload := inputHz, prescaler, autoReload;
      counter, startedAt, running, interruptEnabled, version := 0, now, false, false, 0;
    }

    function Frequency(): (f: nat)
      requires Valid()
      reads this
      ensures f < U32 && (f == 0 <==> inputHz <= prescaler)
      ensures f * (prescaler + 1) <= inputHz < (f + 1) * (prescaler + 1)
    {
      DivMod(inputHz, prescaler + 1);
      DivLower(inputHz, prescaler + 1, 0);
      DivLower(inputHz, prescaler + 1, 1);
      DivLower(inputHz, prescaler + 1, U32);
      MulMonotone(U32, U32 * (prescaler + 1), 1);
      inputHz / (prescaler + 1)
    }

    function Period(): nat
      reads this
    {
      autoReload + 1
    }

    /** The counter value the true clock implies. */
    ghost function TrueCounter(now: nat): int
      requires Valid() && startedAt <= now < U64
      reads this
    {
      if !running || Frequency() == 0 then counter else (counter + Ticks(now - startedAt, Frequency())) % Period()
    }

    method GetCounter(now: nat) returns (value: int)
      requires Valid() && startedAt <= now < U64
      ensures value == TrueCounter(now)
      ensures value == if running && Frequency() > 0
                       then (counter + (now - startedAt) * Frequency() / NANOSECONDS) % (autoReload + 1) else counter
    {
      value := if running then CounterAt(now) else counter;
    }

    function CounterAt(now: nat): (value: int)
      requires Valid() && startedAt <= now < U64
      reads this
      ensures value == if Frequency() == 0 then counter else (counter + Ticks(now - startedAt, Frequency())) % Period()
      ensures 0 <= value < U32
    {
      if Frequency() == 0 then counter
      else
        CounterAfterIsExact(counter, Period(), Frequency(), now - startedAt);
        DivMod(counter + Ticks(now - startedAt, Frequency()), Period());
        CounterAfter(counter, Period(), Frequency(), now - startedAt)
    }

    method CaptureCounter(now: nat)
      requires Valid() && startedAt <= now < U64
      modifies this`counter
      ensures Valid() && counter == old(TrueCounter(now))
    {
      if running {
        counter := CounterAt(now);
      }
    }

    /** start and startIt differ only in the interrupt flag. */
    method Start(now: nat, interrupts: bool) returns (ok: bool)
      requires Valid() && startedAt <= now < U64
      modifies this
      ensures Valid() && ok == (Frequency() != 0) && autoReload == old(autoReload) && prescaler == old(prescaler)
      ensures ok ==> running && interruptEnabled == interrupts && startedAt == now && counter == old(TrueCounter(now))
                     && version == (old(version) + 1) % U32
      ensures !ok ==> counter == old(counter) && startedAt == old(startedAt) && running == old(running)
      ensures !ok ==> version == old(version) && interruptEnabled == old(interruptEnabled)
    {
      if Frequency() == 0 {
        return false;
      }
      CaptureCounter(now);
      startedAt := now;
      running := true;
      interruptEnabled := interrupts;
      version := (version + 1) % U32;
      ok := true;
    }

    method Stop(now: nat)
      requires Valid() && startedAt <= now < U64
      modifies this
      ensures Valid() && !running && !interruptEnabled && counter == old(TrueCounter(now))
      ensures autoReload == old(autoReload)
      ensures prescaler == old(prescaler) && version == (old(version) + 1) % U32
    {
      CaptureCounter(now);
      running := false;
      interruptEnabled := false;
      version := (version + 1) % U32;
    }

    /** setPrescaler: the count so far is kept, the new rate applies from now on. */
    method SetPrescaler(value: nat, now: nat)
      requires Valid() && startedAt <= now < U64 && value < U32
      modifies this
      ensures Valid() && prescaler == value && counter == old(TrueCounter(now)) && startedAt == now
      ensures running == old(running) && autoReload == old(autoReload) && version == (old(version) + 1) % U32
    {
      CaptureCounter(now);
      prescaler := value;
      startedAt := now;
      version := (version + 1) % U32;
    }

    /** setAutoReload: likewise for a new period. */
    method SetAutoReload(value: nat, now: nat)
      requires Valid() && startedAt <= now < U64 && value < U32
      modifies this
      ensures Valid() && autoReload == value && counter == old(TrueCounter(now)) && startedAt == now
      ensures running == old(running) && prescaler == old(prescaler) && version == (old(version) + 1) % U32
    {
      CaptureCounter(now);
      autoReload := value;
      startedAt := now;
      version := (version + 1) % U32;
    }

    /** setCounter; reset and forceUpdateEvent are the same with 0. */
    method SetCounter(value: nat, now: nat)
      requires Valid() && startedAt <= now < U64 && value < U32
      modifies this
      ensures Valid() && counter == value && startedAt == now && version == (old(version) + 1) % U32
      ensures running == old(running) && prescaler == old(prescaler) && autoReload == old(autoReload)
      ensures running && Frequency() != 0 ==> TrueCounter(now) == value % Period()
    {
      counter := value;
      startedAt := now;
      version := (version + 1) % U32;
    }

    /** setPeriodImpl: from a restart at zero, the overflow comes no earlier than
        the duration asked for, unless the period is capped at 2^32 - 1 ticks. */
    method SetPeriod(duration: int, now: nat)
      requires Valid() && startedAt <= now < U64
      modifies this
      ensures Valid() && counter == 0 && startedAt == now && version == (old(version) + 1) % U32
      ensures running == old(running) && prescaler == old(prescaler)
      ensures duration > 0 && Frequency() != 0 ==>
        Period() == Min(CeilDiv(duration * Frequency(), NANOSECONDS), TICK_MAX)
      ensures duration > 0 && Frequency() != 0 && Period() < TICK_MAX ==> DelayFor(Period(), Frequency()) >= duration
      ensures duration <= 0 || Frequency() == 0 ==> Period() == 1
    {
      var ticks := DurationToTicks(duration, Frequency());
      if duration > 0 && Frequency() != 0 {
        DurationToTicksIsCeiling(duration, Frequency());
        PeriodCovers(duration, Frequency());
      }
      autoReload := if ticks == 0 then 0 else ticks - 1;
      counter := 0;
      startedAt := now;
      version := (version + 1) % U32;
    }

    method NanosecondsUntilOverflow(now: nat) returns (delay: int)
      requires Valid() && startedAt <= now < U64
      ensures Frequency() == 0 ==> delay == NANOSECONDS
      ensures Frequency() != 0 && !running ==> delay == DelayFor(Period() - counter % Period(), Frequency())
      ensures Frequency() != 0 && running ==>
        && delay == DelayFor(Period() - CounterAfter(counter, Period(), Frequency(), now - startedAt), Frequency()) >= 0
        && (counter + Ticks(now - startedAt + delay, Frequency())) / Period() >
           (counter + Ticks(now - startedAt, Frequency())) / Period()
    {
      var frequency := Frequency();
      if frequency == 0 {
        return NANOSECONDS;
      }
      DelayReachesOverflow(counter, Period(), frequency, now - startedAt);
      var value := if running then CounterAt(now) else counter % Period();
      delay := ((Period() - value) * NANOSECONDS + frequency - 1) / frequency;
    }
  }
}
