/** Elapsed time and receive intervals over whole histories of collector calls.

    The running fields of the collector are proved equal to quantities read off the history:
    elapsed time is the number of unpaused nanoseconds since the first packet, and the
    interval statistics are sums over the samples between consecutive new highest ids. */
module ReceiveTiming {
  import opened Arithmetic
  import LossAccounting
  import opened Metrics
  import opened Streaming

  function TimeOf(e: Event): int {
    e.time
  }

  ghost predicate InOrder(h: seq<Event>) {
    forall i, j :: 0 <= i < j < |h| ==> TimeOf(h[i]) <= TimeOf(h[j])
  }

  /** No call of the history is later than now. */
  ghost predicate UpTo(h: seq<Event>, now: int) {
    forall i :: 0 <= i < |h| ==> TimeOf(h[i]) <= now
  }

  /** The collector after a history since a reset at which the expected rate was `rate`. */
  ghost function After(h: seq<Event>, rate: DataRate): Collector {
    if h == [] then Fresh(rate) else Apply(After(h[..|h| - 1], rate), h[|h| - 1])
  }

  lemma AfterSnoc(p: seq<Event>, e: Event, rate: DataRate)
    ensures After(p + [e], rate) == Apply(After(p, rate), e)
  {
    assert (p + [e])[..|p|] == p;
  }

  // ----- elapsed time -----

  ghost predicate HasPacket(h: seq<Event>) {
    h != [] && (h[|h| - 1].Packet? || HasPacket(h[..|h| - 1]))
  }

  ghost function FirstTime(h: seq<Event>): int
    requires HasPacket(h)
  {
    var p := h[..|h| - 1];
    if HasPacket(p) then FirstTime(p) else TimeOf(h[|h| - 1])
  }

  /** Whether the collection stands paused at instant t: the last Play or Pause up to t
      decides, and a Pause before the first packet does nothing. */
  ghost predicate PausedAt(h: seq<Event>, t: int) {
    if h == [] then false
    else
      var p, e := h[..|h| - 1], h[|h| - 1];
      if TimeOf(e) > t then PausedAt(p, t)
      else if e.Play? then false
      else if e.Pause? then HasPacket(p)
      else PausedAt(p, t)
  }

  /** The unpaused nanoseconds from the first packet to now. */
  ghost function Running(h: seq<Event>, now: int): set<int>
    requires HasPacket(h)
  {
    set t: int | FirstTime(h) <= t < now && !PausedAt(h, t)
  }

  predicate InSpan(a: int, t: int, b: int) {
    a <= t < b
  }

  ghost function Span(a: int, b: int): set<int> {
    set t: int | a <= t < b && InSpan(a, t, b)
  }

  lemma {:induction false} SpanSize(a: int, b: int)
    requires a <= b
    ensures |Span(a, b)| == b - a
    decreases b - a
  {
    if a == b {
      assert Span(a, b) == {};
    } else {
      SpanSize(a, b - 1);
      assert Span(a, b) == Span(a, b - 1) + {b - 1};
    }
  }

  lemma {:induction false} NoPacketNoPause(h: seq<Event>, rate: DataRate, t: int)
    requires !HasPacket(h)
    ensures !PausedAt(h, t)
    ensures var c := After(h, rate);
            !c.loss.started && !c.pausing.paused && c.pausing.pausedNs == 0
  {
    if h != [] {
      NoPacketNoPause(h[..|h| - 1], rate, t);
    }
  }

  lemma {:induction false} StateMatches(h: seq<Event>, rate: DataRate, now: int)
    requires InOrder(h) && UpTo(h, now)
    ensures var c := After(h, rate);
            c.loss.started == HasPacket(h) && c.pausing.paused == PausedAt(h, now) &&
            (HasPacket(h) ==> c.pausing.start == FirstTime(h) <= now)
  {
    if h != [] {
      var p, e := h[..|h| - 1], h[|h| - 1];
      StateMatches(p, rate, now);
      if !HasPacket(p) {
        NoPacketNoPause(p, rate, now);
      }
    }
  }

  /** Adding a call at time T keeps the nanoseconds before T and decides all later ones alike. */
  lemma RunningSnoc(p: seq<Event>, e: Event, now: int)
    requires InOrder(p + [e]) && HasPacket(p) && TimeOf(e) <= now
    ensures var h := p + [e];
            Running(h, now) == Running(p, TimeOf(e)) + if PausedAt(h, now) then {} else Span(TimeOf(e), now)
    ensures FirstTime(p) <= TimeOf(e)
  {
    var h, T := p + [e], TimeOf(e);
    assert h[..|p|] == p;
    forall i | 0 <= i < |p|
      ensures TimeOf(p[i]) <= T
    {
      assert h[i] == p[i] && h[|p|] == e;
    }
    forall i, j | 0 <= i < j < |p|
      ensures TimeOf(p[i]) <= TimeOf(p[j])
    {
      assert h[i] == p[i] && h[j] == p[j];
    }
    StateMatches(p, Hz30, T);
    forall t: int | T <= t
      ensures PausedAt(h, t) == PausedAt(h, now)
    {
      SettledAfterLast(p, t, now, T);
    }
    assert FirstTime(h) == FirstTime(p);
    forall t: int
      ensures t in Running(h, now) <==>
              t in Running(p, T) + if PausedAt(h, now) then {} else Span(T, now)
    {
      assert t < T ==> PausedAt(h, t) == PausedAt(p, t);
      assert t in Span(T, now) <==> InSpan(T, t, now);
    }
  }

  lemma {:induction false} SettledAfterLast(h: seq<Event>, t1: int, t2: int, last: int)
    requires UpTo(h, last) && last <= t1 && last <= t2
    ensures PausedAt(h, t1) == PausedAt(h, t2)
  {
    if h != [] {
      SettledAfterLast(h[..|h| - 1], t1, t2, last);
    }
  }

  /** ElapsedSeconds is exactly the unpaused time since the first packet. */
  lemma {:induction false} ElapsedIsRunningTime(h: seq<Event>, rate: DataRate, now: int)
    requires InOrder(h) && UpTo(h, now) && HasPacket(h)
    ensures After(h, rate).pausing.ElapsedNs(now) == |Running(h, now)|
  {
    hide Arrive, ArriveTiming;
    var p, e := h[..|h| - 1], h[|h| - 1];
    assert h == p + [e];
    var T := TimeOf(e);
    assert InOrder(p) && UpTo(p, T);
    StateMatches(h, rate, now);
    if HasPacket(p) {
      ElapsedIsRunningTime(p, rate, T);
      StateMatches(p, rate, T);
      AfterSnoc(p, e, rate);
      RunningSnoc(p, e, now);
      SpanSize(T, now);
      assert Running(p, T) !! Span(T, now);
      hide Running, Span, PausedAt, FirstTime, After, Apply;
      ElapsedStep(After(p, rate), e, now);
    } else {
      NoPacketNoPause(p, rate, now);
      AfterSnoc(p, e, rate);
      SpanSize(T, now);
      RunningFromFirst(p, e, now);
    }
  }

  lemma ElapsedStep(c: Collector, e: Event, now: int)
    requires c.loss.started
    ensures var c' := Apply(c, e);
            c'.pausing.ElapsedNs(now) == c.pausing.ElapsedNs(TimeOf(e)) + if c'.pausing.paused then 0 else now - TimeOf(e)
  {
    hide Arrive, ArriveTiming;
  }

  lemma RunningFromFirst(p: seq<Event>, e: Event, now: int)
    requires !HasPacket(p) && e.Packet?
    ensures HasPacket(p + [e]) && Running(p + [e], now) == Span(TimeOf(e), now)
  {
    var h, T := p + [e], TimeOf(e);
    assert h[..|h| - 1] == p && h[|h| - 1] == e;
    assert FirstTime(h) == T;
    forall t: int ensures t in Running(h, now) <==> t in Span(T, now) {
      NoPacketNoPause(p, Hz30, t);
      assert !PausedAt(h, t);
      assert t in Span(T, now) <==> InSpan(T, t, now);
    }
  }

  /** So it is never negative, never runs backwards, and stands still while paused. */
  lemma ElapsedNeverRunsBackwards(h: seq<Event>, rate: DataRate, now: int, later: int)
    requires InOrder(h) && UpTo(h, now) && now <= later
    ensures 0.0 <= SnapshotOf(After(h, rate), now).elapsedSeconds <= SnapshotOf(After(h, rate), later).elapsedSeconds
    ensures PausedAt(h, now) ==>
              SnapshotOf(After(h, rate), now).elapsedSeconds == SnapshotOf(After(h, rate), later).elapsedSeconds
  {
    StateMatches(h, rate, now);
    if HasPacket(h) {
      ElapsedIsRunningTime(h, rate, now);
    }
  }

  // ----- interval samples -----

  /** A new highest id `gap` ids and `elapsed` nanoseconds after the one before it, measured
      while `rate` was expected. */
  datatype Sample = Sample(gap: nat, elapsed: int, rate: DataRate)

  datatype Anchor = NoAnchor | Anchor(id: nat, time: int)

  ghost function HighestId(h: seq<Event>): nat {
    if h == [] then 0
    else
      var m, e := HighestId(h[..|h| - 1]), h[|h| - 1];
      if e.Packet? && (!HasPacket(h[..|h| - 1]) || e.id > m) then e.id else m
  }

  /** The last new highest id, unless a Play, Pause or SetRate came after it. */
  ghost function AnchorOf(h: seq<Event>): Anchor {
    if h == [] then NoAnchor
    else
      var p, e := h[..|h| - 1], h[|h| - 1];
      if !e.Packet? then NoAnchor
      else if !HasPacket(p) || e.id > HighestId(p) then Anchor(e.id, e.time)
      else AnchorOf(p)
  }

  ghost function RateAfter(h: seq<Event>, rate: DataRate): DataRate {
    if h == [] then rate
    else if h[|h| - 1].SetRate? then h[|h| - 1].rate
    else RateAfter(h[..|h| - 1], rate)
  }

  ghost function NewSamples(p: seq<Event>, e: Event, rate: DataRate): seq<Sample> {
    var a := AnchorOf(p);
    if e.Packet? && a.Anchor? && HasPacket(p) && e.id > HighestId(p) && e.id > a.id
    then [Sample(e.id - a.id, e.time - a.time, RateAfter(p, rate))]
    else []
  }

  ghost function Samples(h: seq<Event>, rate: DataRate): seq<Sample> {
    if h == [] then []
    else Samples(h[..|h| - 1], rate) + NewSamples(h[..|h| - 1], h[|h| - 1], rate)
  }

  ghost function Normalized(s: Sample): real
    requires s.gap > 0
  {
    Milliseconds(s.elapsed) / (s.gap as real)
  }

  ghost predicate AllProper(ss: seq<Sample>) {
    forall i :: 0 <= i < |ss| ==> ss[i].gap > 0
  }

  ghost function Total(ss: seq<Sample>): real
    requires AllProper(ss)
  {
    if ss == [] then 0.0 else Total(ss[..|ss| - 1]) + Normalized(ss[|ss| - 1])
  }

  ghost function Deviation(ss: seq<Sample>): real
    requires AllProper(ss)
  {
    if ss == [] then 0.0
    else Deviation(ss[..|ss| - 1]) + Abs(Normalized(ss[|ss| - 1]) - ExpectedMs(ss[|ss| - 1].rate))
  }

  /** More than one and a half times the expected interval per packet. */
  ghost predicate IsDelayed(s: Sample)
    requires s.gap > 0
  {
    Normalized(s) > 1.5 * ExpectedMs(s.rate)
  }

  ghost function DelayedCount(ss: seq<Sample>): nat
    requires AllProper(ss)
  {
    if ss == [] then 0
    else DelayedCount(ss[..|ss| - 1]) + if IsDelayed(ss[|ss| - 1]) then 1 else 0
  }

  ghost predicate IsMaximum(m: real, ss: seq<Sample>)
    requires AllProper(ss)
  {
    && m >= 0.0
    && (forall i :: 0 <= i < |ss| ==> Normalized(ss[i]) <= m)
    && (m > 0.0 ==> exists i :: 0 <= i < |ss| && Normalized(ss[i]) == m)
  }

  lemma DelayTest(actual: real, expected: real, gap: real)
    requires gap > 0.0
    ensures actual > expected * gap * 1.5 <==> actual / gap > 1.5 * expected
  {
    var n := actual / gap;
    assert n * gap == actual;
    if n > 1.5 * expected {
      assert n * gap > 1.5 * expected * gap;
    } else {
      assert n * gap <= 1.5 * expected * gap;
    }
  }

  lemma {:induction false} AnchorIsHighest(h: seq<Event>, rate: DataRate)
    ensures AnchorOf(h).Anchor? ==> HasPacket(h) && AnchorOf(h).id == HighestId(h)
    ensures AllProper(Samples(h, rate))
  {
    if h != [] {
      AnchorIsHighest(h[..|h| - 1], rate);
    }
  }

  ghost predicate Totals(t: Timing, ss: seq<Sample>)
    requires AllProper(ss)
  {
    && t.samples == |ss|
    && t.totalMs == Total(ss)
    && t.deviationMs == Deviation(ss)
    && t.delayed == DelayedCount(ss)
    && IsMaximum(t.maxMs, ss)
  }

  ghost predicate TimingMatches(h: seq<Event>, rate: DataRate)
    requires AllProper(Samples(h, rate))
  {
    var c, ss := After(h, rate), Samples(h, rate);
    && c.loss.started == HasPacket(h)
    && c.loss.highest == HighestId(h)
    && c.timing.rate == RateAfter(h, rate)
    && c.timing.hasSample == AnchorOf(h).Anchor?
    && (AnchorOf(h).Anchor? ==> AnchorOf(h) == Anchor(c.timing.lastId, c.timing.lastTime))
    && Totals(c.timing, ss)
  }

  lemma SampleStep(ss: seq<Sample>, s: Sample, m: real)
    requires AllProper(ss) && s.gap > 0 && IsMaximum(m, ss)
    ensures AllProper(ss + [s])
    ensures Total(ss + [s]) == Total(ss) + Normalized(s)
    ensures Deviation(ss + [s]) == Deviation(ss) + Abs(Normalized(s) - ExpectedMs(s.rate))
    ensures DelayedCount(ss + [s]) == DelayedCount(ss) + if IsDelayed(s) then 1 else 0
    ensures IsMaximum(if Normalized(s) > m then Normalized(s) else m, ss + [s])
  {
    var ss' := ss + [s];
    assert ss'[..|ss|] == ss && ss'[|ss|] == s;
    forall i | 0 <= i < |ss|
      ensures ss'[i] == ss[i]
    {
    }
    if m > 0.0 {
      var i :| 0 <= i < |ss| && Normalized(ss[i]) == m;
      assert Normalized(ss'[i]) == m;
    }
  }

  /** The delay test of the code, which multiplies, is the test on the normalized interval. */
  lemma AddedSample(t: Timing, s: Sample)
    requires s.gap > 0 && s.rate == t.rate
    ensures var t' := AddSample(t, s.gap, s.elapsed);
            && t'.samples == t.samples + 1
            && t'.totalMs == t.totalMs + Normalized(s)
            && t'.maxMs == (if Normalized(s) > t.maxMs then Normalized(s) else t.maxMs)
            && t'.deviationMs == t.deviationMs + Abs(Normalized(s) - ExpectedMs(s.rate))
            && t'.delayed == t.delayed + if IsDelayed(s) then 1 else 0
  {
    DelayTest(Milliseconds(s.elapsed), ExpectedMs(s.rate), s.gap as real);
    hide Milliseconds, ExpectedMs, Abs;
  }

  lemma TotalsStep(t: Timing, ss: seq<Sample>, s: Sample)
    requires AllProper(ss) && s.gap > 0 && s.rate == t.rate && Totals(t, ss)
    ensures AllProper(ss + [s]) && Totals(AddSample(t, s.gap, s.elapsed), ss + [s])
  {
    hide Total, Deviation, DelayedCount, IsMaximum, Milliseconds, ExpectedMs, Abs, Normalized, IsDelayed, AddSample;
    SampleStep(ss, s, t.maxMs);
    AddedSample(t, s);
  }

  lemma AddsToTotals(p: seq<Event>, e: Event, rate: DataRate, s: Sample)
    requires AllProper(Samples(p, rate)) && TimingMatches(p, rate)
    requires AnchorOf(p).Anchor? ==> HasPacket(p) && AnchorOf(p).id == HighestId(p)
    requires NewSamples(p, e, rate) == [s]
    ensures AllProper(Samples(p + [e], rate)) && TimingMatches(p + [e], rate)
  {
    hide Between, Stale, AddSample, Total, Deviation, DelayedCount, IsMaximum;
    var h := p + [e];
    assert h[..|p|] == p && h[|p|] == e;
    AfterSnoc(p, e, rate);
    var t, ss := After(p, rate).timing, Samples(p, rate);
    assert Samples(h, rate) == ss + [s];
    assert AnchorOf(h) == Anchor(e.id, e.time) && HighestId(h) == e.id && HasPacket(h);
    assert s.gap == e.id - t.lastId && s.elapsed == e.time - t.lastTime && s.rate == t.rate;
    TotalsStep(t, ss, s);
    var t' := After(h, rate).timing;
    assert t' == Anchored(AddSample(t, s.gap, s.elapsed), e.id, e.time);
    assert Totals(t', Samples(h, rate));
    assert AddSample(t, s.gap, s.elapsed).rate == t.rate by {
      SampleKeepsRate(t, s.gap, s.elapsed);
    }
    assert t'.rate == RateAfter(h, rate);
  }

  lemma SampleKeepsRate(t: Timing, gap: nat, elapsed: int)
    requires gap > 0
    ensures AddSample(t, gap, elapsed).rate == t.rate
  {
  }

  lemma KeepsTotals(p: seq<Event>, e: Event, rate: DataRate)
    requires AllProper(Samples(p, rate)) && TimingMatches(p, rate)
    requires AnchorOf(p).Anchor? ==> HasPacket(p) && AnchorOf(p).id == HighestId(p)
    requires NewSamples(p, e, rate) == []
    ensures AllProper(Samples(p + [e], rate)) && TimingMatches(p + [e], rate)
  {
    hide Between, Stale, Total, Deviation, DelayedCount, IsMaximum, AddSample;
    var h := p + [e];
    assert h[..|p|] == p && h[|p|] == e;
    AfterSnoc(p, e, rate);
    var ss := Samples(p, rate);
    assert Samples(h, rate) == ss + [] == ss;
    hide Samples, After;
  }

  lemma TimingStep(p: seq<Event>, e: Event, rate: DataRate)
    requires AllProper(Samples(p, rate)) && TimingMatches(p, rate)
    requires AnchorOf(p).Anchor? ==> HasPacket(p) && AnchorOf(p).id == HighestId(p)
    ensures AllProper(Samples(p + [e], rate)) && TimingMatches(p + [e], rate)
  {
    var h := p + [e];
    assert h[..|p|] == p && h[|p|] == e;
    if NewSamples(p, e, rate) == [] {
      KeepsTotals(p, e, rate);
    } else {
      AddsToTotals(p, e, rate, NewSamples(p, e, rate)[0]);
    }
  }

  /** After any history every interval statistic is the declared sum, maximum or count. */
  lemma {:induction false} TimingIsExact(h: seq<Event>, rate: DataRate)
    ensures AllProper(Samples(h, rate)) && TimingMatches(h, rate)
  {
    if h != [] {
      var p, e := h[..|h| - 1], h[|h| - 1];
      assert h == p + [e];
      TimingIsExact(p, rate);
      AnchorIsHighest(p, rate);
      TimingStep(p, e, rate);
    }
  }

  /** A live timing sample sits at the highest id received. */
  lemma {:induction false} LiveSampleIsAtHighest(h: seq<Event>, rate: DataRate)
    ensures var c := After(h, rate); c.timing.hasSample ==> c.timing.lastId == c.loss.highest
  {
    TimingIsExact(h, rate);
    AnchorIsHighest(h, rate);
  }

  // ----- what the reported averages obey -----

  lemma {:induction false} TotalBelow(ss: seq<Sample>, m: real)
    requires AllProper(ss)
    requires forall i :: 0 <= i < |ss| ==> Normalized(ss[i]) <= m
    ensures Total(ss) <= (|ss| as real) * m
    ensures DelayedCount(ss) <= |ss|
  {
    if ss != [] {
      var init := ss[..|ss| - 1];
      TotalBelow(init, m);
      assert (|ss| as real) * m == (|init| as real) * m + m;
    }
  }

  lemma QuotientAtMost(a: real, n: real, m: real)
    requires n > 0.0 && a <= n * m
    ensures a / n <= m
  {
    var q := a / n;
    assert q * n == a;
    assert (q - m) * n <= 0.0;
  }

  /** The average interval never exceeds the maximum, and at most all samples are delayed. */
  lemma {:induction false} AverageIsAtMostMaximum(h: seq<Event>, rate: DataRate, now: int)
    ensures var s := SnapshotOf(After(h, rate), now);
            s.averageMs <= s.maxMs && s.delayed <= s.samples && 0.0 <= s.delayedRate <= 100.0
  {
    TimingIsExact(h, rate);
    hide Samples, After, Total, DelayedCount, Deviation;
    var t, ss := After(h, rate).timing, Samples(h, rate);
    TotalBelow(ss, t.maxMs);
    if t.samples != 0 {
      QuotientAtMost(t.totalMs, t.samples as real, t.maxMs);
      QuotientAtMost(t.delayed as real, t.samples as real, 1.0);
    }
  }

  // ----- telescoping -----

  ghost function GapSum(ss: seq<Sample>): nat {
    if ss == [] then 0 else GapSum(ss[..|ss| - 1]) + ss[|ss| - 1].gap
  }

  ghost function ElapsedSum(ss: seq<Sample>): int {
    if ss == [] then 0 else ElapsedSum(ss[..|ss| - 1]) + ss[|ss| - 1].elapsed
  }

  /** Over a stretch of packets uninterrupted by Play, Pause or SetRate, the samples' gaps and
      durations add up to the distance between the first and the last highest id. */
  lemma {:induction false} SamplesTelescope(p: seq<Event>, q: seq<Event>, rate: DataRate) returns (added: seq<Sample>)
    requires AnchorOf(p).Anchor?
    requires forall i :: 0 <= i < |q| ==> q[i].Packet?
    ensures Samples(p + q, rate) == Samples(p, rate) + added
    ensures AnchorOf(p + q).Anchor?
    ensures GapSum(added) == AnchorOf(p + q).id - AnchorOf(p).id
    ensures ElapsedSum(added) == AnchorOf(p + q).time - AnchorOf(p).time
  {
    if q == [] {
      assert p + q == p;
      added := [];
      assert Samples(p, rate) + added == Samples(p, rate);
    } else {
      var q', e := q[..|q| - 1], q[|q| - 1];
      var mid := p + q';
      var before := SamplesTelescope(p, q', rate);
      assert p + q == mid + [e];
      assert (p + q)[..|p + q| - 1] == mid;
      AnchorIsHighest(mid, rate);
      var latest := NewSamples(mid, e, rate);
      added := before + latest;
      assert Samples(p, rate) + before + latest == Samples(p, rate) + added;
      if latest == [] {
        assert added == before;
      } else {
        assert added[..|added| - 1] == before;
      }
    }
  }

  // ----- loss alongside the other calls -----

  /** The ids of the packets in a history of calls. */
  ghost function PacketIds(h: seq<Event>): seq<nat> {
    if h == [] then []
    else
      var ids := PacketIds(h[..|h| - 1]);
      if h[|h| - 1].Packet? then ids + [h[|h| - 1].id] else ids
  }

  /** Plays, pauses and rate changes between the packets leave the loss bookkeeping alone. */
  lemma {:induction false} LossSeesPacketsOnly(h: seq<Event>, rate: DataRate)
    ensures After(h, rate).loss == LossAccounting.After(PacketIds(h))
    ensures HasPacket(h) <==> PacketIds(h) != []
  {
    hide Arrive, ArriveTiming;
    if h != [] {
      LossSeesPacketsOnly(h[..|h| - 1], rate);
    }
  }

  /** So after any history of calls since a reset the loss state is the declarative one of the
      packets in it, and the books balance. */
  lemma {:induction false} CollectorIsExact(h: seq<Event>, rate: DataRate)
    requires HasPacket(h)
    ensures var ids := PacketIds(h);
            && ids != []
            && After(h, rate).loss ==
               Loss(true, LossAccounting.Highest(ids), LossAccounting.MissingIds(ids), |ids|,
                    LossAccounting.Count(ids, LossAccounting.Recovery), |LossAccounting.LostIds(ids)|)
            && |ids| + After(h, rate).loss.LossCount() ==
               (LossAccounting.Highest(ids) - ids[0] + 1) + LossAccounting.Count(ids, LossAccounting.Ignored)
  {
    hide LossAccounting.After, LossAccounting.MissingIds, LossAccounting.LostIds, LossAccounting.Count, After;
    LossSeesPacketsOnly(h, rate);
    LossAccounting.CollectorIsExact(PacketIds(h));
    LossAccounting.PacketsAreConserved(PacketIds(h));
  }

  // ----- the numbers a snapshot shows -----

  lemma QuotientIs(q: real, a: real, b: real)
    requires b != 0.0 && q == a / b
    ensures q * b == a
  {
  }

  /** The loss figures of a snapshot: whole packets, and the loss rate in percent of all packets
      expected. */
  lemma {:induction false} SnapshotOfLoss(h: seq<Event>, rate: DataRate, now: int)
    requires HasPacket(h)
    ensures var s, ids := SnapshotOf(After(h, rate), now), PacketIds(h);
            && ids != []
            && s.received == |ids|
            && s.lossCount == |LossAccounting.MissingIds(ids)| + |LossAccounting.LostIds(ids)|
            && s.outOfOrder == LossAccounting.Count(ids, LossAccounting.Recovery)
            && s.lossRate * ((s.received + s.lossCount) as real) == 100.0 * (s.lossCount as real)
  {
    hide LossAccounting.MissingIds, LossAccounting.LostIds, LossAccounting.Count, LossAccounting.Highest, After;
    CollectorIsExact(h, rate);
    var l := After(h, rate).loss;
    var lost, expected := l.LossCount() as real, (l.received + l.LossCount()) as real;
    QuotientIs(lost / expected, lost, expected);
    assert l.LossRate() == lost / expected * 100.0;
    assert lost / expected * 100.0 * expected == lost / expected * expected * 100.0;
  }

  /** Its elapsed time, in seconds: a thousand million times that are the running nanoseconds. */
  lemma {:induction false} SnapshotOfTime(h: seq<Event>, rate: DataRate, now: int)
    requires InOrder(h) && UpTo(h, now)
    ensures SnapshotOf(After(h, rate), now).elapsedSeconds * 1_000_000_000.0 ==
            if HasPacket(h) then |Running(h, now)| as real else 0.0
  {
    StateMatches(h, rate, now);
    if HasPacket(h) {
      ElapsedIsRunningTime(h, rate, now);
    }
    hide After, Running;
  }

  /** Its interval figures: the average, the largest and the average deviation of the samples, and
      the delayed ones in number and in percent; all zero without samples. */
  lemma {:induction false} SnapshotOfIntervals(h: seq<Event>, rate: DataRate, now: int)
    ensures AllProper(Samples(h, rate))
    ensures var s, ss := SnapshotOf(After(h, rate), now), Samples(h, rate);
            && s.samples == |ss| && s.delayed == DelayedCount(ss) && IsMaximum(s.maxMs, ss)
            && s.averageMs * (|ss| as real) == Total(ss)
            && s.averageDeviationMs * (|ss| as real) == Deviation(ss)
            && s.delayedRate * (|ss| as real) == 100.0 * (DelayedCount(ss) as real)
            && (ss == [] ==> s.averageMs == s.maxMs == s.averageDeviationMs == s.delayedRate == 0.0)
  {
    hide After, Samples, SnapshotOf, Total, Deviation, DelayedCount, IsMaximum;
    TimingIsExact(h, rate);
    AveragesOf(After(h, rate), now);
    NoSamples(Samples(h, rate));
  }

  lemma NoSamples(ss: seq<Sample>)
    requires AllProper(ss)
    ensures ss == [] ==> Total(ss) == Deviation(ss) == 0.0 && DelayedCount(ss) == 0
    ensures ss == [] ==> forall m :: IsMaximum(m, ss) ==> m == 0.0
    ensures ss == [] ==> IsMaximum(0.0, ss)
  {
  }

  lemma AveragesOf(c: Collector, now: int)
    ensures var s, n := SnapshotOf(c, now), c.timing.samples as real;
            && s.samples == c.timing.samples && s.delayed == c.timing.delayed
            && (c.timing.samples != 0 ==> s.maxMs == c.timing.maxMs)
            && (c.timing.samples == 0 ==> s.averageMs == s.maxMs == s.averageDeviationMs == s.delayedRate == 0.0)
            && (c.timing.samples != 0 ==> s.averageMs * n == c.timing.totalMs)
            && (c.timing.samples != 0 ==> s.averageDeviationMs * n == c.timing.deviationMs)
            && (c.timing.samples != 0 ==> s.delayedRate * n == 100.0 * (c.timing.delayed as real))
  {
    hide Loss.LossRate, Loss.LossCount, Pausing.ElapsedNs;
    var t, n := c.timing, c.timing.samples as real;
    if t.samples != 0 {
      QuotientIs(t.totalMs / n, t.totalMs, n);
      QuotientIs(t.deviationMs / n, t.deviationMs, n);
      QuotientIs(t.delayed as real / n, t.delayed as real, n);
      assert t.delayed as real / n * 100.0 * n == t.delayed as real / n * n * 100.0;
    }
  }

  /** A sample's interval per packet in milliseconds is its nanoseconds over its gap and over a
      million; at 30 Hz a third of 100 ms is expected, at 60 Hz a sixth. */
  lemma SampleInNumbers(s: Sample)
    requires s.gap > 0
    ensures Normalized(s) * (s.gap as real) * 1_000_000.0 == s.elapsed as real
    ensures ExpectedMs(Hz30) * 3.0 == 100.0 && ExpectedMs(Hz60) * 6.0 == 100.0
  {
    QuotientIs(Normalized(s), Milliseconds(s.elapsed), s.gap as real);
  }

  /** So a sample counts as delayed above 50 ms a packet at 30 Hz, and above 25 ms at 60 Hz. */
  lemma DelayedInNumbers(s: Sample)
    requires s.gap > 0
    ensures IsDelayed(s) <==> s.elapsed > s.gap * (if s.rate == Hz30 then 50_000_000 else 25_000_000)
  {
    SampleInNumbers(s);
    var limit := if s.rate == Hz30 then 50.0 else 25.0;
    assert IsDelayed(s) <==> Normalized(s) > limit;
    ScaleOrder(Normalized(s), limit, s.gap as real);
    hide Normalized, IsDelayed;
    assert s.elapsed as real == Normalized(s) * (s.gap as real) * 1_000_000.0;
    assert limit * (s.gap as real) * 1_000_000.0 == (s.gap * (if s.rate == Hz30 then 50_000_000 else 25_000_000)) as real;
  }

  lemma ScaleOrder(a: real, b: real, c: real)
    requires c > 0.0
    ensures a > b <==> a * c > b * c
  {
    if a > b {
      assert (a - b) * c > 0.0;
    } else {
      assert (b - a) * c >= 0.0;
    }
  }
}
