/** The client's receive statistics (ClientCore/MetricsCollector.cpp).

    Ids are unsigned 64-bit; the clock is integer nanoseconds; statistics held as doubles in
    the source are reals. `Loss`, `Timing` and `Pausing` are the three groups of fields, and
    the class is proved to move them as the functions say. */
module Metrics {
  import opened Arithmetic
  import opened Streaming

  type u64 = n: nat | n < 0x1_0000_0000_0000_0000

  /** A missing id this far below the highest one is given up as lost. */
  const WINDOW: nat := 1000

  // ----- what each operation does to the three groups of fields -----

  datatype Loss = Loss(started: bool, highest: nat, missing: set<nat>,
                       received: nat, recovered: nat, confirmedLost: nat)
  {
    function LossCount(): nat {
      confirmedLost + |missing|
    }

    function LossRate(): real {
      var expected := received + LossCount();
      if expected == 0 then 0.0 else (LossCount() as real) / (expected as real) * 100.0
    }
  }

  const NO_LOSS := Loss(false, 0, {}, 0, 0, 0)

  predicate Inside(low: nat, i: nat, high: nat) {
    low < i < high
  }

  function Between(low: nat, high: nat): set<nat> {
    set i: nat | i < high && Inside(low, i, high)
  }

  function Stale(missing: set<nat>, highest: nat): set<nat> {
    set i | i in missing && i + WINDOW <= highest
  }

  function Arrive(l: Loss, id: nat): Loss {
    var l1 := l.(received := l.received + 1);
    if !l.started then
      l1.(started := true, highest := id)
    else if id > l.highest then
      var missing := l.missing + Between(l.highest, id);
      var stale := Stale(missing, id);
      l1.(highest := id, missing := missing - stale, confirmedLost := l.confirmedLost + |stale|)
    else if id in l.missing then
      l1.(missing := l.missing - {id}, recovered := l.recovered + 1)
    else
      l1
  }

  datatype Timing = Timing(rate: DataRate, hasSample: bool, lastId: nat, lastTime: int,
                           samples: nat, totalMs: real, maxMs: real, deviationMs: real, delayed: nat)

  function NoTiming(rate: DataRate): Timing {
    Timing(rate, false, 0, 0, 0, 0.0, 0.0, 0.0, 0)
  }

  function Milliseconds(nanoseconds: int): real {
    nanoseconds as real / 1_000_000.0
  }

  function ExpectedMs(rate: DataRate): real {
    1000.0 / (rate.Hz() as real)
  }

  /** One more interval sample: `gap` ids apart, `elapsed` nanoseconds apart. */
  function AddSample(t: Timing, gap: nat, elapsed: int): Timing
    requires gap > 0
  {
    var actual := Milliseconds(elapsed);
    var expected := ExpectedMs(t.rate);
    var normalized := actual / (gap as real);
    t.(samples := t.samples + 1,
       totalMs := t.totalMs + normalized,
       maxMs := if normalized > t.maxMs then normalized else t.maxMs,
       deviationMs := t.deviationMs + Abs(normalized - expected),
       delayed := if actual > expected * (gap as real) * 1.5 then t.delayed + 1 else t.delayed)
  }

  function Anchored(t: Timing, id: nat, now: int): Timing {
    t.(hasSample := true, lastId := id, lastTime := now)
  }

  function ArriveTiming(l: Loss, t: Timing, id: nat, now: int): Timing {
    if !l.started then Anchored(t, id, now)
    else if id <= l.highest then t
    else if t.hasSample && id > t.lastId then Anchored(AddSample(t, id - t.lastId, now - t.lastTime), id, now)
    else if t.hasSample then t
    else Anchored(t, id, now)
  }

  /** The elapsed-time bookkeeping; `pausedNs` is the pause time accumulated so far. */
  datatype Pausing = Pausing(start: int, paused: bool, pauseStart: int, pausedNs: int) {
    function ElapsedNs(now: int): int {
      now - start - (pausedNs + if paused then now - pauseStart else 0)
    }
  }

  datatype Collector = Collector(loss: Loss, timing: Timing, pausing: Pausing)

  function Fresh(rate: DataRate): Collector {
    Collector(NO_LOSS, NoTiming(rate), Pausing(0, false, 0, 0))
  }

  /** The calls a collector receives between two resets. */
  datatype Event =
    | Packet(id: u64, time: int)
    | Play(time: int)
    | Pause(time: int)
    | SetRate(rate: DataRate, time: int)

  function Apply(c: Collector, e: Event): Collector {
    match e
    case Packet(id, now) =>
      Collector(Arrive(c.loss, id),
                ArriveTiming(c.loss, c.timing, id, now),
                if c.loss.started then c.pausing else c.pausing.(start := now))
    case Play(now) =>
      c.(timing := c.timing.(hasSample := false),
         pausing := if c.pausing.paused
                    then c.pausing.(paused := false, pausedNs := c.pausing.pausedNs + (now - c.pausing.pauseStart))
                    else c.pausing)
    case Pause(now) =>
      c.(timing := c.timing.(hasSample := false),
         pausing := if c.loss.started && !c.pausing.paused
                    then c.pausing.(paused := true, pauseStart := now)
                    else c.pausing)
    case SetRate(rate, _) =>
      c.(timing := c.timing.(rate := rate, hasSample := false))
  }

  datatype Snapshot = Snapshot(
    elapsedSeconds: real, received: nat, lossCount: nat, outOfOrder: nat, lossRate: real,
    samples: nat, averageMs: real, maxMs: real, averageDeviationMs: real, delayed: nat, delayedRate: real)

  function SnapshotOf(c: Collector, now: int): Snapshot {
    var n := c.timing.samples as real;
    var any := c.timing.samples != 0;
    Snapshot(
      if c.loss.started then c.pausing.ElapsedNs(now) as real / 1_000_000_000.0 else 0.0,
      c.loss.received, c.loss.LossCount(), c.loss.recovered, c.loss.LossRate(), c.timing.samples,
      if any then c.timing.totalMs / n else 0.0,
      if any then c.timing.maxMs else 0.0,
      if any then c.timing.deviationMs / n else 0.0,
      c.timing.delayed,
      if any then c.timing.delayed as real / n * 100.0 else 0.0)
  }

  // ----- the class -----

  class MetricsCollector {
    var totalReceivedCount: nat
    var outOfOrderCount: nat
    var confirmedLostCount: nat
    var highestSequenceId: u64
    var hasReceivedPacket: bool
    var statsStartTime: int

    var isPaused: bool
    var pauseStartTime: int
    var accumulatedPausedNs: int

    var missingSequenceIds: set<nat>
    var expectedDataRate: DataRate

    var hasTimingSample: bool
    var lastTimingSequenceId: u64
    var lastReceiveTime: int
    var intervalSampleCount: nat
    var totalReceiveInterval: real
    var maxReceiveInterval: real
    var totalIntervalDeviation: real
    var delayedPacketCount: nat

    /** Id 0 is never missing, so the early return of the expiry at 1000 skips nothing. */
    ghost predicate Valid()
      reads this
    {
      && (forall i :: i in missingSequenceIds ==> 0 < i < highestSequenceId)
      && (!hasReceivedPacket ==> missingSequenceIds == {})
      && (hasTimingSample ==> lastTimingSequenceId <= highestSequenceId)
    }

    function LossView(): Loss
      reads this
    {
      Loss(hasReceivedPacket, highestSequenceId, missingSequenceIds,
           totalReceivedCount, outOfOrderCount, confirmedLostCount)
    }

    function TimingView(): Timing
      reads this
    {
      Timing(expectedDataRate, hasTimingSample, lastTimingSequenceId, lastReceiveTime,
             intervalSampleCount, totalReceiveInterval, maxReceiveInterval, totalIntervalDeviation,
             delayedPacketCount)
    }

    function PausingView(): Pausing
      reads this
    {
      Pausing(statsStartTime, isPaused, pauseStartTime, accumulatedPausedNs)
    }

    function View(): Collector
      reads this
    {
      Collector(LossView(), TimingView(), PausingView())
    }

    constructor ()
      ensures Valid() && View() == Fresh(Hz30)
    {
      totalReceivedCount, outOfOrderCount, confirmedLostCount := 0, 0, 0;
      highestSequenceId, hasReceivedPacket, statsStartTime := 0, false, 0;
      isPaused, pauseStartTime, accumulatedPausedNs := false, 0, 0;
      missingSequenceIds := {};
      expectedDataRate := Hz30;
      hasTimingSample, lastTimingSequenceId, lastReceiveTime := false, 0, 0;
      intervalSampleCount, totalReceiveInterval, maxReceiveInterval, totalIntervalDeviation := 0, 0.0, 0.0, 0.0;
      delayedPacketCount := 0;
    }

    method OnPacketReceived(sequenceId: u64, now: int)
      requires Valid()
      modifies this
      ensures Valid() && View() == Apply(old(View()), Packet(sequenceId, now))
    {
      hide AddSample, Stale, Between, Anchored;
      totalReceivedCount := totalReceivedCount + 1;

      if !hasReceivedPacket {
        BeginWith(sequenceId, now);
        return;
      }

      if sequenceId > highestSequenceId {
        AdvanceTo(sequenceId, now);
        return;
      }

      AcceptRecovered(sequenceId);
    }

    /** The part of OnPacketReceived for an id at or below the highest one. */
    method AcceptRecovered(sequenceId: u64)
      modifies `missingSequenceIds, `outOfOrderCount
      ensures missingSequenceIds == old(missingSequenceIds) - {sequenceId}
      ensures outOfOrderCount == old(outOfOrderCount) + if sequenceId in old(missingSequenceIds) then 1 else 0
    {
      if sequenceId in missingSequenceIds {
        missingSequenceIds := missingSequenceIds - {sequenceId};
        outOfOrderCount := outOfOrderCount + 1;
      }
    }

    /** The first packet's part of OnPacketReceived. */
    method BeginWith(sequenceId: u64, now: int)
      modifies `highestSequenceId, `hasReceivedPacket, `statsStartTime,
               `lastTimingSequenceId, `lastReceiveTime, `hasTimingSample
      ensures hasReceivedPacket && highestSequenceId == sequenceId && statsStartTime == now
      ensures hasTimingSample && lastTimingSequenceId == sequenceId
      ensures TimingView() == Anchored(old(TimingView()), sequenceId, now)
    {
      highestSequenceId := sequenceId;
      hasReceivedPacket := true;
      statsStartTime := now;
      lastTimingSequenceId := sequenceId;
      lastReceiveTime := now;
      hasTimingSample := true;
    }

    /** The part of OnPacketReceived for an id above the highest one. */
    method AdvanceTo(sequenceId: u64, now: int)
      requires Valid() && hasReceivedPacket && highestSequenceId < sequenceId
      modifies `missingSequenceIds, `confirmedLostCount, `highestSequenceId,
               `hasTimingSample, `lastTimingSequenceId, `lastReceiveTime, `intervalSampleCount,
               `totalReceiveInterval, `maxReceiveInterval, `totalIntervalDeviation, `delayedPacketCount
      ensures Valid() && highestSequenceId == sequenceId
      ensures var missing := old(missingSequenceIds) + Between(old(highestSequenceId), sequenceId);
              var stale := Stale(missing, sequenceId);
              missingSequenceIds == missing - stale && confirmedLostCount == old(confirmedLostCount) + |stale|
      ensures TimingView() ==
              if old(hasTimingSample)
              then Anchored(AddSample(old(TimingView()), sequenceId - old(lastTimingSequenceId), now - old(lastReceiveTime)),
                            sequenceId, now)
              else Anchored(old(TimingView()), sequenceId, now)
    {
      InsertMissingUpTo(sequenceId);
      RecordReceiveInterval(now, sequenceId);
      highestSequenceId := sequenceId;
      ExpireStaleMissingSequenceIds();
    }

    /** The insertion loop of OnPacketReceived. */
    method InsertMissingUpTo(sequenceId: u64)
      requires highestSequenceId < sequenceId
      modifies `missingSequenceIds
      ensures missingSequenceIds == old(missingSequenceIds) + Between(highestSequenceId, sequenceId)
    {
      var missingId: nat := highestSequenceId + 1;
      while missingId < sequenceId
        invariant highestSequenceId < missingId <= sequenceId
        invariant missingSequenceIds == old(missingSequenceIds) + Between(highestSequenceId, missingId)
      {
        missingSequenceIds := missingSequenceIds + {missingId};
        missingId := missingId + 1;
      }
    }

    method ExpireStaleMissingSequenceIds()
      requires forall i :: i in missingSequenceIds ==> 0 < i < highestSequenceId
      modifies `missingSequenceIds, `confirmedLostCount
      ensures missingSequenceIds == old(missingSequenceIds) - Stale(old(missingSequenceIds), highestSequenceId)
      ensures confirmedLostCount == old(confirmedLostCount) + |Stale(old(missingSequenceIds), highestSequenceId)|
    {
      ghost var stale := Stale(missingSequenceIds, highestSequenceId);
      if highestSequenceId <= WINDOW {
        assert stale == {};
        return;
      }
      var expiryThreshold := highestSequenceId - WINDOW;

      var unvisited := missingSequenceIds;
      ghost var expired: set<nat> := {};
      while unvisited != {}
        invariant unvisited <= missingSequenceIds
        invariant expired <= stale && expired !! unvisited
        invariant missingSequenceIds == old(missingSequenceIds) - expired
        invariant stale - expired <= unvisited
        invariant confirmedLostCount == old(confirmedLostCount) + |expired|
        decreases |unvisited|
      {
        var id :| id in unvisited;
        unvisited := unvisited - {id};
        if id <= expiryThreshold {
          missingSequenceIds := missingSequenceIds - {id};
          confirmedLostCount := confirmedLostCount + 1;
          expired := expired + {id};
        }
      }
      assert expired == stale;
    }

    method RecordReceiveInterval(receivedTime: int, sequenceId: u64)
      requires hasTimingSample ==> lastTimingSequenceId <= sequenceId
      modifies `hasTimingSample, `lastTimingSequenceId, `lastReceiveTime, `intervalSampleCount,
               `totalReceiveInterval, `maxReceiveInterval, `totalIntervalDeviation, `delayedPacketCount
      ensures TimingView() ==
              if !old(hasTimingSample) then Anchored(old(TimingView()), sequenceId, receivedTime)
              else if sequenceId == old(lastTimingSequenceId) then old(TimingView())
              else Anchored(AddSample(old(TimingView()), sequenceId - old(lastTimingSequenceId),
                                      receivedTime - old(lastReceiveTime)), sequenceId, receivedTime)
    {
      if !hasTimingSample {
        lastTimingSequenceId := sequenceId;
        lastReceiveTime := receivedTime;
        hasTimingSample := true;
        return;
      }

      var sequenceDifference := sequenceId - lastTimingSequenceId;
      if sequenceDifference == 0 {
        return;
      }

      var actualElapsed := Milliseconds(receivedTime - lastReceiveTime);
      var expectedInterval := ExpectedMs(expectedDataRate);
      var expectedElapsed := expectedInterval * (sequenceDifference as real);
      var normalizedInterval := actualElapsed / (sequenceDifference as real);
      var deviation := Abs(normalizedInterval - expectedInterval);

      intervalSampleCount := intervalSampleCount + 1;
      totalReceiveInterval := totalReceiveInterval + normalizedInterval;
      if normalizedInterval > maxReceiveInterval {
        maxReceiveInterval := normalizedInterval;
      }
      totalIntervalDeviation := totalIntervalDeviation + deviation;
      if actualElapsed > expectedElapsed * 1.5 {
        delayedPacketCount := delayedPacketCount + 1;
      }

      lastTimingSequenceId := sequenceId;
      lastReceiveTime := receivedTime;
    }

    method SetExpectedDataRate(rate: DataRate, ghost now: int)
      requires Valid()
      modifies this
      ensures Valid() && View() == Apply(old(View()), SetRate(rate, now))
    {
      expectedDataRate := rate;
      hasTimingSample := false;
    }

    method OnPlay(now: int)
      requires Valid()
      modifies this
      ensures Valid() && View() == Apply(old(View()), Play(now))
    {
      if isPaused {
        accumulatedPausedNs := accumulatedPausedNs + (now - pauseStartTime);
        isPaused := false;
      }
      hasTimingSample := false;
    }

    method OnPause(now: int)
      requires Valid()
      modifies this
      ensures Valid() && View() == Apply(old(View()), Pause(now))
    {
      if hasReceivedPacket && !isPaused {
        pauseStartTime := now;
        isPaused := true;
      }
      hasTimingSample := false;
    }

    /** Everything but the expected rate starts over. */
    method Reset()
      modifies this
      ensures Valid() && View() == Fresh(old(expectedDataRate))
    {
      ResetCounts();
      ResetTiming();
    }

    method ResetCounts()
      modifies `totalReceivedCount, `outOfOrderCount, `confirmedLostCount, `highestSequenceId, `hasReceivedPacket,
               `statsStartTime, `isPaused, `pauseStartTime, `accumulatedPausedNs, `missingSequenceIds
      ensures totalReceivedCount == outOfOrderCount == confirmedLostCount == 0
      ensures highestSequenceId == 0 && !hasReceivedPacket && statsStartTime == 0
      ensures !isPaused && pauseStartTime == 0 && accumulatedPausedNs == 0
      ensures missingSequenceIds == {}
    {
      totalReceivedCount, outOfOrderCount, confirmedLostCount := 0, 0, 0;
      highestSequenceId, hasReceivedPacket, statsStartTime := 0, false, 0;
      isPaused, pauseStartTime, accumulatedPausedNs := false, 0, 0;
      missingSequenceIds := {};
    }

    method ResetTiming()
      modifies `hasTimingSample, `lastTimingSequenceId, `lastReceiveTime, `intervalSampleCount,
               `totalReceiveInterval, `maxReceiveInterval, `totalIntervalDeviation, `delayedPacketCount
      ensures !hasTimingSample && lastTimingSequenceId == 0 && lastReceiveTime == 0
      ensures intervalSampleCount == delayedPacketCount == 0
      ensures totalReceiveInterval == maxReceiveInterval == totalIntervalDeviation == 0.0
    {
      hasTimingSample, lastTimingSequenceId, lastReceiveTime := false, 0, 0;
      intervalSampleCount, delayedPacketCount := 0, 0;
      totalReceiveInterval, maxReceiveInterval, totalIntervalDeviation := 0.0, 0.0, 0.0;
    }

    method GetSnapshot(now: int) returns (s: Snapshot)
      ensures s == SnapshotOf(View(), now)
    {
      var elapsed := 0.0;
      if hasReceivedPacket {
        var pausedNs := accumulatedPausedNs;
        if isPaused {
          pausedNs := pausedNs + (now - pauseStartTime);
        }
        elapsed := (now - statsStartTime - pausedNs) as real / 1_000_000_000.0;
      }
      var lossCount := confirmedLostCount + |missingSequenceIds|;
      var lossRate := 0.0;
      if totalReceivedCount + lossCount != 0 {
        lossRate := (lossCount as real) / ((totalReceivedCount + lossCount) as real) * 100.0;
      }
      s := Snapshot(elapsed, totalReceivedCount, lossCount, outOfOrderCount, lossRate,
                    intervalSampleCount, 0.0, 0.0, 0.0, delayedPacketCount, 0.0);
      if intervalSampleCount != 0 {
        var n := intervalSampleCount as real;
        s := s.(averageMs := totalReceiveInterval / n,
                maxMs := maxReceiveInterval,
                averageDeviationMs := totalIntervalDeviation / n,
                delayedRate := delayedPacketCount as real / n * 100.0);
      }
    }
  }
}
