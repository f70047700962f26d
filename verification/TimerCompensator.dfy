/** The drift-free tick scheduler of Common/TimerCompensator.h, on an integer nanosecond clock.

    The conversion of seconds to clock units truncates, so tick k is due at
    start + floor(k * 10^9 / rate). */
module Timers {
  import opened Arithmetic
  import opened Streaming

  const SECOND: nat := 1_000_000_000

  function TickTime(start: int, rate: DataRate, k: nat): int {
    start + k * SECOND / rate.Hz()
  }

  /** ceil((now - start + 1) * rate / 10^9). */
  function FirstTickAfter(start: int, rate: DataRate, now: int): int {
    ((now - start + 1) * rate.Hz() + SECOND - 1) / SECOND
  }

  /** That is the least tick due after `now`. */
  lemma FirstTickAfterIsLeast(start: int, rate: DataRate, now: int, k: nat)
    ensures TickTime(start, rate, k) > now <==> k >= FirstTickAfter(start, rate, now)
  {
    var d := now - start;
    match rate
    case Hz30 => assert k * SECOND / 30 >= d + 1 <==> k * SECOND >= (d + 1) * 30;
    case Hz60 => assert k * SECOND / 60 >= d + 1 <==> k * SECOND >= (d + 1) * 60;
  }

  /** Tick times never drift: each is within a nanosecond below k / rate seconds. */
  lemma TicksDoNotDrift(start: int, rate: DataRate, k: nat)
    ensures 0 <= k * SECOND - (TickTime(start, rate, k) - start) * rate.Hz() < rate.Hz()
  {
  }

  /** Every 30 or 60 ticks make a second to the nanosecond. */
  lemma SecondsAreWhole(start: int, n: nat)
    ensures TickTime(start, Hz30, 30 * n) == TickTime(start, Hz60, 60 * n) == start + n * 1_000_000_000
  {
    assert 30 * n * SECOND / 30 == n * SECOND && 60 * n * SECOND / 60 == n * SECOND;
  }

  lemma TickTimesIncrease(start: int, rate: DataRate, k: nat)
    ensures TickTime(start, rate, k) + 1 < TickTime(start, rate, k + 1)
  {
  }

  /** A 30 Hz tick falls exactly on every second 60 Hz tick. */
  lemma HalfRateTicksCoincide(start: int, k: nat)
    ensures TickTime(start, Hz60, 2 * k) == TickTime(start, Hz30, k)
  {
    assert 2 * k * SECOND / 60 == k * SECOND / 30;
  }

  /** The tick a wait ends on, given the one before it. */
  function NextTick(start: int, rate: DataRate, previous: nat, now: int): (k: nat)
    ensures k > previous
  {
    Max(previous + 1, FirstTickAfter(start, rate, now))
  }

  class TimerCompensator {
    var dataRate: DataRate
    var startTime: int
    var tickCount: nat

    constructor (dataRate: DataRate, now: int)
      ensures this.dataRate == dataRate && startTime == now && tickCount == 0
    {
      this.dataRate, startTime, tickCount := dataRate, now, 0;
    }

    method SetDataRate(rate: DataRate, now: int)
      modifies this
      ensures dataRate == rate && startTime == now && tickCount == 0
    {
      dataRate := rate;
      Reset(now);
    }

    method Reset(now: int)
      modifies `startTime, `tickCount
      ensures startTime == now && tickCount == 0
    {
      startTime, tickCount := now, 0;
    }

    /** Counts past every tick already due and returns how many ticks that was, with the
        instant the caller sleeps until. */
    method WaitForNextTick(now: int) returns (elapsed: nat, wakeUp: int)
      modifies `tickCount
      ensures tickCount == NextTick(startTime, dataRate, old(tickCount), now)
      ensures elapsed == tickCount - old(tickCount) > 0
      ensures wakeUp == TickTime(startTime, dataRate, tickCount) > now
    {
      var previous := tickCount;
      tickCount := tickCount + 1;
      wakeUp := TickTime(startTime, dataRate, tickCount);
      FirstTickAfterIsLeast(startTime, dataRate, now, tickCount);
      while wakeUp <= now
        invariant previous < tickCount
        invariant wakeUp == TickTime(startTime, dataRate, tickCount)
        invariant tickCount <= Max(previous + 1, FirstTickAfter(startTime, dataRate, now))
        invariant wakeUp > now <==> tickCount >= FirstTickAfter(startTime, dataRate, now)
        decreases Max(0, now - wakeUp + 1)
      {
        TickTimesIncrease(startTime, dataRate, tickCount);
        tickCount := tickCount + 1;
        wakeUp := TickTime(startTime, dataRate, tickCount);
        FirstTickAfterIsLeast(startTime, dataRate, now, tickCount);
      }
      elapsed := tickCount - previous;
    }
  }

  // ----- runs of a worker -----

  /** The tick index after a run of waits, one clock reading each. */
  ghost function TickAfter(start: int, rate: DataRate, nows: seq<int>): nat {
    if nows == [] then 0
    else NextTick(start, rate, TickAfter(start, rate, nows[..|nows| - 1]), nows[|nows| - 1])
  }

  /** How many ticks the last wait of a run returned. */
  ghost function Returned(start: int, rate: DataRate, nows: seq<int>): nat
    requires nows != []
  {
    TickAfter(start, rate, nows) - TickAfter(start, rate, nows[..|nows| - 1])
  }

  ghost function SumReturned(start: int, rate: DataRate, nows: seq<int>): nat {
    if nows == [] then 0 else SumReturned(start, rate, nows[..|nows| - 1]) + Returned(start, rate, nows)
  }

  /** Each wait sleeps until its tick is due, so the next reading is not before it. */
  ghost predicate Slept(start: int, rate: DataRate, nows: seq<int>) {
    forall i :: 0 <= i < |nows| ==> TickTime(start, rate, TickAfter(start, rate, nows[..i])) <= nows[i]
  }

  /** Whatever the delays, the scheduler is always on the least tick after its last clock
      reading: never a tick behind at the call, never more than one ahead, no tick counted
      twice and none skipped. */
  lemma {:induction false} SchedulerKeepsUp(start: int, rate: DataRate, nows: seq<int>)
    requires nows != [] && Slept(start, rate, nows)
    ensures var k, now := TickAfter(start, rate, nows), nows[|nows| - 1];
            && k == FirstTickAfter(start, rate, now)
            && k > 0 && TickTime(start, rate, k - 1) <= now < TickTime(start, rate, k)
            && SumReturned(start, rate, nows) == k
  {
    var p, now := nows[..|nows| - 1], nows[|nows| - 1];
    var before := TickAfter(start, rate, p);
    FirstTickAfterIsLeast(start, rate, now, before);
    SumIsTick(start, rate, nows);
    var k := TickAfter(start, rate, nows);
    FirstTickAfterIsLeast(start, rate, now, k);
    FirstTickAfterIsLeast(start, rate, now, k - 1);
  }

  lemma {:induction false} SumIsTick(start: int, rate: DataRate, nows: seq<int>)
    ensures SumReturned(start, rate, nows) == TickAfter(start, rate, nows)
  {
    if nows != [] {
      SumIsTick(start, rate, nows[..|nows| - 1]);
    }
  }
}
