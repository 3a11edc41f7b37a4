/**
 Elapsed time from a wrapping hardware counter, with the number of lost wraps
 reconstructed from the coarse ThreadX tick count, and the conversions between
 ticks and nanoseconds in 64-bit arithmetic.
 */
module CounterClock {
  import opened Arithmetic
  import opened Wrappers

  const NANOSECONDS := 1_000_000_000
  const TICKS_PER_SECOND := 1000
  const U64 := 0x1_0000_0000_0000_0000
  const I64_MAX := 0x7FFF_FFFF_FFFF_FFFF

  // ----- Conversions

  /** The overflow test of the conversions: whole units plus a rest beyond a
      maximum, without computing the product. */
  lemma BoundTest(whole: nat, unit: nat, rest: nat, maximum: nat)
    requires unit > 0 && rest <= maximum
    ensures whole > (maximum - rest) / unit <==> whole * unit + rest > maximum
  {
    DivLower(maximum - rest, unit, whole);
  }

  lemma RestIsSmall(x: nat, unit: nat, f: nat)
    requires unit > 0 && f > 0
    ensures ((x % unit) * f) / unit < f
  {
    MulMonotone(x % unit, unit - 1, f);
    assert (unit - 1) * f == f * unit - f;
    DivLower((x % unit) * f, unit, f);
  }

  lemma DivNonNegative(a: nat, m: nat)
    requires m > 0
    ensures a / m >= 0
  {
    DivLower(a, m, 0);
  }

  function TicksToNanoseconds(ticks: nat): nat {
    var seconds := ticks / TICKS_PER_SECOND;
    var fraction := ticks % TICKS_PER_SECOND * NANOSECONDS / TICKS_PER_SECOND;
    if seconds > (I64_MAX - fraction) / NANOSECONDS then I64_MAX else seconds * NANOSECONDS + fraction
  }

  /** The steady clock is the exact tick count in nanoseconds, saturated. */
  lemma TicksToNanosecondsIsExact(ticks: nat)
    ensures var exact := ticks * NANOSECONDS / TICKS_PER_SECOND;
      TicksToNanoseconds(ticks) == if exact <= I64_MAX then exact else I64_MAX
    ensures ticks % TICKS_PER_SECOND * NANOSECONDS < U64
  {
    SplitScale(ticks, TICKS_PER_SECOND, NANOSECONDS);
    RestIsSmall(ticks, TICKS_PER_SECOND, NANOSECONDS);
    BoundTest(ticks / TICKS_PER_SECOND, NANOSECONDS, ticks % TICKS_PER_SECOND * NANOSECONDS / TICKS_PER_SECOND,
              I64_MAX);
  }

  lemma TicksToNanosecondsIsMonotone(a: nat, b: nat)
    requires a <= b
    ensures TicksToNanoseconds(a) <= TicksToNanoseconds(b)
  {
    TicksToNanosecondsIsExact(a);
    TicksToNanosecondsIsExact(b);
    DivMonotone(a * NANOSECONDS, b * NANOSECONDS, TICKS_PER_SECOND);
  }

  function ThreadTicksToCounterTicks(ticks: nat, frequency: nat): Option<nat>
    requires 0 < frequency <= NANOSECONDS
  {
    DivNonNegative(ticks, TICKS_PER_SECOND);
    var seconds := ticks / TICKS_PER_SECOND;
    var fraction := ticks % TICKS_PER_SECOND * frequency / TICKS_PER_SECOND;
    if seconds > (U64 - 1 - fraction) / frequency then None
    else Some(seconds * frequency + fraction)
  }

  lemma ThreadTicksConversionIsExact(ticks: nat, frequency: nat)
    requires 0 < frequency <= NANOSECONDS
    ensures var exact := ticks * frequency / TICKS_PER_SECOND;
      ThreadTicksToCounterTicks(ticks, frequency) == if exact < U64 then Some(exact) else None
    ensures ticks % TICKS_PER_SECOND * frequency < U64
  {
    SplitScale(ticks, TICKS_PER_SECOND, frequency);
    RestIsSmall(ticks, TICKS_PER_SECOND, frequency);
    MulMonotone(ticks % TICKS_PER_SECOND, TICKS_PER_SECOND, frequency);
    BoundTest(ticks / TICKS_PER_SECOND, frequency, ticks % TICKS_PER_SECOND * frequency / TICKS_PER_SECOND, U64 - 1);
  }

  function CounterTicksToNanoseconds(ticks: nat, frequency: nat): Option<nat>
    requires 0 < frequency <= NANOSECONDS
  {
    DivNonNegative(ticks % frequency * NANOSECONDS, frequency);
    DivNonNegative(ticks, frequency);
    var seconds := ticks / frequency;
    var fraction := ticks % frequency * NANOSECONDS / frequency;
    if seconds > (I64_MAX - fraction) / NANOSECONDS then None
    else Some(seconds * NANOSECONDS + fraction)
  }

  lemma CounterConversionIsExact(ticks: nat, frequency: nat)
    requires 0 < frequency <= NANOSECONDS
    ensures var exact := ticks * NANOSECONDS / frequency;
      CounterTicksToNanoseconds(ticks, frequency) == if exact <= I64_MAX then Some(exact) else None
    ensures ticks % frequency * NANOSECONDS < U64
  {
    SplitScale(ticks, frequency, NANOSECONDS);
    RestIsSmall(ticks, frequency, NANOSECONDS);
    BoundTest(ticks / frequency, NANOSECONDS, ticks % frequency * NANOSECONDS / frequency, I64_MAX);
  }

  // ----- Wraps

  /** Counter distance from epoch to now, modulo the counter's modulus. */
  function ModularElapsed(epoch: nat, now: nat, modulus: nat): nat
    requires epoch < modulus && now < modulus
  {
    if now >= epoch then now - epoch else modulus - epoch + now
  }

  lemma ModularElapsedIsRemainder(epoch: nat, elapsed: nat, modulus: nat)
    requires epoch < modulus
    ensures ModularElapsed(epoch, (epoch + elapsed) % modulus, modulus) == elapsed % modulus
  {
    DivMod(elapsed, modulus);
    var r := elapsed % modulus;
    AddMultiple(epoch + r, elapsed / modulus, modulus);
    if epoch + r < modulus {
      DivModUnique(epoch + r, modulus, 0, epoch + r);
    } else {
      DivModUnique(epoch + r, modulus, 1, epoch + r - modulus);
    }
  }

  /** A difference in whole wraps, rounded to the nearest and ties upwards. */
  function RoundedWraps(difference: nat, modulus: nat): nat
    requires modulus > 0
  {
    DivNonNegative(difference, modulus);
    difference / modulus + (if difference % modulus >= modulus - difference % modulus then 1 else 0)
  }

  /** The number of wraps that fits the coarse count best; a reading more than
      half a modulus ahead of the coarse count is refused. */
  function Reconstruct(modular: nat, coarse: nat, modulus: nat): Option<nat>
    requires modular < modulus < U64
  {
    if coarse >= modular then Checked(modular, RoundedWraps(coarse - modular, modulus), modulus)
    else if modular - coarse > modulus / 2 then None
    else Checked(modular, 0, modulus)
  }

  function Checked(modular: nat, wraps: nat, modulus: nat): Option<nat>
    requires modular < modulus < U64
  {
    if wraps > (U64 - 1 - modular) / modulus then None
    else Some(modular + wraps * modulus)
  }

  /** The coarse count is within half a modulus of x, the lower end included. */
  predicate Near(coarse: int, x: int, modulus: int) { -modulus <= 2 * (coarse - x) < modulus }

  /** Two candidates with one remainder cannot both be near. */
  lemma NearIsUnique(coarse: int, x: int, y: int, k: int, modulus: int)
    requires modulus > 0 && x - y == k * modulus && Near(coarse, x, modulus) && Near(coarse, y, modulus)
    ensures x == y
  {
    if k >= 1 {
      MulMonotone(1, k, modulus);
    } else if k <= -1 {
      MulMonotone(k, -1, modulus);
    }
  }

  /** The rounded number of wraps is the one that is near. */
  lemma RoundedIsNear(modular: nat, coarse: nat, modulus: nat)
    requires modular < modulus < U64 && coarse >= modular
    ensures Near(coarse, modular + RoundedWraps(coarse - modular, modulus) * modulus, modulus)
  {
    var difference := coarse - modular;
    DivMod(difference, modulus);
    var q := difference / modulus;
    assert (q + 1) * modulus == q * modulus + modulus;
  }

  lemma CheckedIsExact(modular: nat, wraps: nat, modulus: nat)
    requires modular < modulus < U64
    ensures Checked(modular, wraps, modulus) ==
      if modular + wraps * modulus < U64 then Some(modular + wraps * modulus) else None
    ensures (modular + wraps * modulus) % modulus == modular
  {
    BoundTest(wraps, modulus, modular, U64 - 1);
    DivModUnique(modular + wraps * modulus, modulus, wraps, modular);
  }

  /** Any accepted answer is congruent to the reading and near the coarse count. */
  lemma ReconstructIsSound(modular: nat, coarse: nat, modulus: nat)
    requires modular < modulus < U64 && Reconstruct(modular, coarse, modulus).Some?
    ensures var x := Reconstruct(modular, coarse, modulus).value;
      x < U64 && x % modulus == modular && Near(coarse, x, modulus)
  {
    if coarse >= modular {
      CheckedIsExact(modular, RoundedWraps(coarse - modular, modulus), modulus);
      RoundedIsNear(modular, coarse, modulus);
    } else {
      CheckedIsExact(modular, 0, modulus);
    }
  }

  lemma SameRemainderDifference(r: int, p: int, q: int, modulus: int)
    ensures (r + p * modulus) - (q * modulus + r) == (p - q) * modulus
  {
  }

  lemma NearIsFoundAbove(elapsed: nat, coarse: nat, modulus: nat)
    requires 0 < modulus < U64 && elapsed < U64 && coarse >= elapsed % modulus && Near(coarse, elapsed, modulus)
    ensures Reconstruct(elapsed % modulus, coarse, modulus) == Some(elapsed)
  {
    var modular, w := elapsed % modulus, elapsed / modulus;
    DivMod(elapsed, modulus);
    var wraps := RoundedWraps(coarse - modular, modulus);
    RoundedIsNear(modular, coarse, modulus);
    SameRemainderDifference(modular, wraps, w, modulus);
    NearIsUnique(coarse, modular + wraps * modulus, elapsed, wraps - w, modulus);
    CheckedIsExact(modular, wraps, modulus);
  }

  lemma NearIsFoundBelow(elapsed: nat, coarse: nat, modulus: nat)
    requires 0 < modulus < U64 && elapsed < U64 && coarse < elapsed % modulus && Near(coarse, elapsed, modulus)
    ensures Reconstruct(elapsed % modulus, coarse, modulus) == Some(elapsed)
  {
    var modular, w := elapsed % modulus, elapsed / modulus;
    DivMod(elapsed, modulus);
    DivNonNegative(elapsed, modulus);
    if w >= 1 {
      MulMonotone(1, w, modulus);
    }
    assert w == 0 && elapsed == modular;
    CheckedIsExact(modular, 0, modulus);
  }

  /** The reconstruction returns the true count exactly when the coarse count is
      within half a modulus of it. */
  lemma ReconstructIsExactIff(elapsed: nat, coarse: nat, modulus: nat)
    requires 0 < modulus < U64 && elapsed < U64
    ensures Reconstruct(elapsed % modulus, coarse, modulus) == Some(elapsed) <==> Near(coarse, elapsed, modulus)
  {
    if Reconstruct(elapsed % modulus, coarse, modulus) == Some(elapsed) {
      ReconstructIsSound(elapsed % modulus, coarse, modulus);
    } else if Near(coarse, elapsed, modulus) {
      if coarse >= elapsed % modulus {
        NearIsFoundAbove(elapsed, coarse, modulus);
      } else {
        NearIsFoundBelow(elapsed, coarse, modulus);
      }
    }
  }

  // ----- The whole reading

  datatype Reading = Reading(ticks: nat, frequency: nat, modulus: nat, version: nat)

  predicate ValidReading(r: Reading) {
    0 < r.frequency <= NANOSECONDS && r.modulus < U64 && (r.modulus == 0 || r.ticks < r.modulus)
  }

  predicate SameTimer(a: Reading, b: Reading) {
    a.version == b.version && a.frequency == b.frequency && a.modulus == b.modulus
  }

  /** high_resolution_elapsed_nanoseconds: the result, and whether the counter
      stays in use.  `current` is None when the timer could not be read. */
  function Elapsed(available: bool, epoch: Reading, current: Option<Reading>, threadTicks: nat): (Option<nat>, bool)
    requires ValidReading(epoch) && (current.Some? ==> ValidReading(current.value))
  {
    if !available then (None, false)
    else if current.None? || !SameTimer(epoch, current.value) then (None, false)
    else if epoch.modulus == 0 then
      if current.value.ticks < epoch.ticks then (None, true)
      else (CounterTicksToNanoseconds(current.value.ticks - epoch.ticks, epoch.frequency), true)
    else
      match ThreadTicksToCounterTicks(threadTicks, epoch.frequency)
      case None => (None, true)
      case Some(coarse) =>
        match Reconstruct(ModularElapsed(epoch.ticks, current.value.ticks, epoch.modulus), coarse, epoch.modulus)
        case None => (None, true)
        case Some(ticks) => (CounterTicksToNanoseconds(ticks, epoch.frequency), true)
  }

  /** When ThreadX has counted to within half a modulus of the true number of
      counter ticks, the reading is the true elapsed time in nanoseconds, rounded
      down, whatever number of wraps went by. */
  lemma ElapsedIsExact(epoch: Reading, elapsed: nat, threadTicks: nat)
    requires ValidReading(epoch) && epoch.modulus > 0
    requires elapsed * NANOSECONDS / epoch.frequency <= I64_MAX
    requires var coarse := threadTicks * epoch.frequency / TICKS_PER_SECOND;
      coarse < U64 && Near(coarse, elapsed, epoch.modulus)
    ensures var now := epoch.(ticks := (epoch.ticks + elapsed) % epoch.modulus);
      var (result, available) := Elapsed(true, epoch, Some(now), threadTicks);
      available && result.Some? && result.value == elapsed * NANOSECONDS / epoch.frequency
  {
    ModularElapsedIsRemainder(epoch.ticks, elapsed, epoch.modulus);
    ThreadTicksConversionIsExact(threadTicks, epoch.frequency);
    ElapsedFits(elapsed, epoch.frequency);
    ReconstructIsExactIff(elapsed, threadTicks * epoch.frequency / TICKS_PER_SECOND, epoch.modulus);
    CounterConversionIsExact(elapsed, epoch.frequency);
  }

  lemma ElapsedFits(elapsed: nat, frequency: nat)
    requires 0 < frequency <= NANOSECONDS && elapsed * NANOSECONDS / frequency <= I64_MAX
    ensures elapsed < U64
  {
    MulMonotone(frequency, NANOSECONDS, elapsed);
    DivLower(elapsed * NANOSECONDS, frequency, elapsed);
  }

  /** The counter stays in use exactly as long as it can be read and it is the same
      timer in the same state, and only then is there a result. */
  lemma CounterStaysInUseIff(available: bool, epoch: Reading, current: Option<Reading>, threadTicks: nat)
    requires ValidReading(epoch) && (current.Some? ==> ValidReading(current.value))
    ensures var (result, stays) := Elapsed(available, epoch, current, threadTicks);
      && (stays <==>
            available && current.Some? && current.value.version == epoch.version &&
            current.value.frequency == epoch.frequency && current.value.modulus == epoch.modulus)
      && (result.Some? ==> stays)
  {
  }

  /** A counter that never wraps gives the distance in nanoseconds, rounded down, and
      no result if it has gone back or the result does not fit. */
  lemma FreeRunningElapsed(epoch: Reading, now: Reading, threadTicks: nat)
    requires ValidReading(epoch) && ValidReading(now) && epoch.modulus == now.modulus == 0
    requires now.version == epoch.version && now.frequency == epoch.frequency
    ensures Elapsed(true, epoch, Some(now), threadTicks).0 ==
      if now.ticks < epoch.ticks then None
      else
        var exact := (now.ticks - epoch.ticks) * NANOSECONDS / epoch.frequency;
        if exact <= I64_MAX then Some(exact) else None
  {
    if now.ticks >= epoch.ticks {
      CounterConversionIsExact(now.ticks - epoch.ticks, epoch.frequency);
    }
  }

  /** Whatever result a wrapping counter gives is that of a count which its two readings
      allow and the coarse clock corroborates. */
  lemma ElapsedIsSound(epoch: Reading, now: Reading, threadTicks: nat) returns (ticks: nat)
    requires ValidReading(epoch) && ValidReading(now) && epoch.modulus > 0
    requires Elapsed(true, epoch, Some(now), threadTicks).0.Some?
    ensures Elapsed(true, epoch, Some(now), threadTicks).0.value == ticks * NANOSECONDS / epoch.frequency
    ensures (epoch.ticks + ticks) % epoch.modulus == now.ticks
    ensures Near(threadTicks * epoch.frequency / TICKS_PER_SECOND, ticks, epoch.modulus)
  {
    var m := epoch.modulus;
    var modular := ModularElapsed(epoch.ticks, now.ticks, m);
    ThreadTicksConversionIsExact(threadTicks, epoch.frequency);
    var coarse := ThreadTicksToCounterTicks(threadTicks, epoch.frequency).value;
    ReconstructIsSound(modular, coarse, m);
    ticks := Reconstruct(modular, coarse, m).value;
    CounterConversionIsExact(ticks, epoch.frequency);
    DivMod(ticks, m);
    AddMultiple(epoch.ticks + modular, ticks / m, m);
    if now.ticks >= epoch.ticks {
      DivModUnique(epoch.ticks + modular, m, 0, now.ticks);
    } else {
      DivModUnique(epoch.ticks + modular, m, 1, now.ticks);
    }
  }
}
