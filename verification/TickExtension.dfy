/**
 The 64-bit steady tick count built from a 32-bit kernel counter: a class with
 the two fields of the source, sampled by steady_ticks and by the rollover timer.
 */
module TickExtension {
  import opened Arithmetic
  import opened Bits
  import CounterClock

  const WRAP := 0x1_0000_0000

  class TickCounter {
    var epoch: nat
    var previous: nat
    /** The unbounded tick count at the last sample, and the one at start-up
        rounded down to a whole wrap. */
    ghost var Now: nat
    ghost const Origin: nat

    ghost predicate Valid()
      reads this
    {
      && Origin % WRAP == 0 && Origin <= Now
      && epoch % WRAP == 0 && previous == Now % WRAP
      && epoch + previous == Now - Origin
    }

    /** runtime::initialize: the counter starts at an arbitrary tick. */
    constructor (ghost start: nat, sample: nat)
      requires sample == start % WRAP
      ensures Valid() && Now == start && Origin == start - start % WRAP
    {
      epoch, previous := 0, sample;
      Now, Origin := start, start - start % WRAP;
      new;
      DivMod(start, WRAP);
      AddMultiple(0, start / WRAP, WRAP);
    }

    /** steady_ticks / extend_tick_counter.  If fewer than 2^32 ticks have passed
        since the last sample, the result is the true count. */
    method Sample(current: nat, ghost now: nat) returns (ticks: nat)
      requires Valid() && current == now % WRAP && Now <= now < Now + WRAP
      modifies this
      ensures Valid() && Now == now && ticks == now - Origin
      ensures ticks >= old(epoch + previous)
    {
      ghost var before := Now;
      WrapStep(before, now, Origin, epoch);
      if current < previous {
        epoch := epoch + WRAP;
      }
      previous := current;
      Now := now;
      EpochOr(epoch, current);
      ticks := Or(epoch, current);
    }
  }

  /** One sample either stays in the same wrap or enters the next one. */
  lemma WrapStep(before: nat, now: nat, origin: nat, epoch: nat)
    requires origin % WRAP == 0 && epoch % WRAP == 0 && before <= now < before + WRAP
    requires epoch + before % WRAP == before - origin
    ensures var epoch' := if now % WRAP < before % WRAP then epoch + WRAP else epoch;
      epoch' % WRAP == 0 && epoch' + now % WRAP == now - origin
  {
    DivMod(before, WRAP);
    DivMod(now, WRAP);
    AddMultiple(epoch, 1, WRAP);
    DivMonotone(before, now, WRAP);
  }

  /** The epoch has its low 32 bits clear, so or-ing the sample adds it. */
  lemma EpochOr(epoch: nat, current: nat)
    requires epoch % WRAP == 0 && current < WRAP
    ensures Or(epoch, current) == epoch + current
  {
    Pow2Values();
    DivMod(epoch, WRAP);
    OrIsSum(epoch / WRAP, current, 32);
  }

  /** extend_tick_counter over a whole history of samples. */
  function Extend(epoch: nat, previous: nat, samples: seq<nat>): seq<nat>
    decreases |samples|
  {
    if samples == [] then []
    else
      var epoch' := if samples[0] < previous then epoch + WRAP else epoch;
      [Or(epoch', samples[0])] + Extend(epoch', samples[0], samples[1..])
  }

  ghost predicate Spaced(times: seq<nat>) {
    forall i :: 0 <= i < |times| - 1 ==> times[i] <= times[i + 1] < times[i] + WRAP
  }

  function Low32(times: seq<nat>): seq<nat> {
    if times == [] then [] else [times[0] % WRAP] + Low32(times[1..])
  }

  /** For every history of samples less than 2^32 ticks apart, the extended counts
      are the true counts, up to the wraps before start-up. */
  lemma {:induction false} ExtensionIsExact(times: seq<nat>, before: nat, origin: nat, epoch: nat, k: nat)
    requires origin % WRAP == 0 && epoch % WRAP == 0 && epoch + before % WRAP == before - origin
    requires Spaced([before] + times) && k < |times|
    ensures k < |Extend(epoch, before % WRAP, Low32(times))|
    ensures Extend(epoch, before % WRAP, Low32(times))[k] == times[k] - origin
    decreases |times|
  {
    SpacedTail(before, times);
    WrapStep(before, times[0], origin, epoch);
    var epoch' := if times[0] % WRAP < before % WRAP then epoch + WRAP else epoch;
    EpochOr(epoch', times[0] % WRAP);
    ExtendUnfolds(epoch, before % WRAP, times);
    if k > 0 {
      ExtensionIsExact(times[1..], times[0], origin, epoch', k - 1);
    }
  }

  lemma ExtendUnfolds(epoch: nat, previous: nat, times: seq<nat>)
    requires times != []
    ensures var epoch' := if times[0] % WRAP < previous then epoch + WRAP else epoch;
      Extend(epoch, previous, Low32(times)) == [Or(epoch', times[0] % WRAP)] +
        Extend(epoch', times[0] % WRAP, Low32(times[1..]))
  {
    assert Low32(times)[0] == times[0] % WRAP && Low32(times)[1..] == Low32(times[1..]);
  }

  lemma SpacedTail(before: nat, times: seq<nat>)
    requires times != [] && Spaced([before] + times)
    ensures before <= times[0] < before + WRAP && Spaced([times[0]] + times[1..])
  {
    var all, rest := [before] + times, [times[0]] + times[1..];
    assert all[0] <= all[0 + 1] < all[0] + WRAP;
    assert rest == times;
    forall i | 0 <= i < |rest| - 1
      ensures rest[i] <= rest[i + 1] < rest[i] + WRAP
    {
      assert all[i + 1] <= all[i + 1 + 1] < all[i + 1] + WRAP;
    }
  }

  lemma {:induction false} SpacedIsMonotone(times: seq<nat>, i: nat, j: nat)
    requires Spaced(times) && i <= j < |times|
    ensures times[i] <= times[j]
    decreases j - i
  {
    if i < j {
      SpacedIsMonotone(times, i, j - 1);
      assert times[j - 1] <= times[j - 1 + 1];
    }
  }

  /** Steady nanoseconds never run backwards over such a history. */
  lemma SteadyTimeIsMonotone(times: seq<nat>, before: nat, origin: nat, epoch: nat, i: nat, j: nat)
    requires origin % WRAP == 0 && epoch % WRAP == 0 && epoch + before % WRAP == before - origin
    requires Spaced([before] + times) && i <= j < |times|
    ensures var ticks := Extend(epoch, before % WRAP, Low32(times));
      && j < |ticks| && ticks[i] <= ticks[j]
      && CounterClock.TicksToNanoseconds(ticks[i]) <= CounterClock.TicksToNanoseconds(ticks[j])
  {
    ExtensionIsExact(times, before, origin, epoch, i);
    ExtensionIsExact(times, before, origin, epoch, j);
    SpacedIsMonotone([before] + times, i + 1, j + 1);
    var ticks := Extend(epoch, before % WRAP, Low32(times));
    CounterClock.TicksToNanosecondsIsMonotone(ticks[i], ticks[j]);
  }
}
