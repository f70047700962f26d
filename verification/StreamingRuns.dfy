/** Whole runs of the streaming worker: no simulated time is lost or invented, and what the
    30/60 Hz division guarantees and does not.

    The worker's clock readings so far are `p`, those of the window in question `q`; a session
    may begin to play, or be looked at, at any point of the worker's life. */
module StreamingRuns {
  import opened Streaming
  import opened Sessions
  import opened SessionRuns
  import opened Timers
  import opened UdpStreaming

  /** The tick the worker is on after some readings. */
  ghost function TickAt(start: int, nows: seq<int>): nat {
    TickAfter(start, Hz60, nows)
  }

  /** What one wake-up makes of a session. */
  ghost function Woken(c: Client, elapsed: nat, tick: nat, trig: Trig): Client {
    AfterSend(Stepped(c, elapsed, trig), tick)
  }

  /** A session after the wake-ups of a window, if nothing else happens to it. */
  ghost function Awoken(c: Client, start: int, p: seq<int>, q: seq<int>, trig: Trig): Client
    decreases |q|
  {
    if q == [] then c
    else
      var before := q[..|q| - 1];
      var tick, last := TickAt(start, p + q), TickAt(start, p + before);
      TickGrows(start, p, q);
      Woken(Awoken(c, start, p, before, trig), tick - last, tick, trig)
  }

  lemma TickGrows(start: int, p: seq<int>, q: seq<int>)
    requires q != []
    ensures TickAt(start, p + q[..|q| - 1]) < TickAt(start, p + q)
    ensures TickAt(start, p + q) == NextTick(start, Hz60, TickAt(start, p + q[..|q| - 1]), q[|q| - 1])
  {
    assert (p + q)[..|p + q| - 1] == p + q[..|q| - 1];
  }

  lemma {:induction false} TickNeverFalls(start: int, p: seq<int>, q: seq<int>)
    ensures TickAt(start, p) + |q| <= TickAt(start, p + q)
    decreases |q|
  {
    if q == [] {
      assert p + q == p;
    } else {
      TickNeverFalls(start, p, q[..|q| - 1]);
      TickGrows(start, p, q);
    }
  }

  // ----- the worker -----

  /** The worker's loop over a table that does not change: every session ends as Awoken says. */
  method Worker(sessions: seq<ClientSession>, now: int, nows: seq<int>, timestamps: seq<bv64>,
                trig: Trig, bits: real -> bv32, ghost before: seq<Client>)
    requires Distinct(sessions) && Shows(sessions, before) && |timestamps| == |nows|
    modifies sessions
    ensures forall i :: 0 <= i < |sessions| ==> ClientOf(sessions[i]) == Awoken(before[i], now, [], nows, trig)
  {
    hide Woken, Stepped, AfterSend, Entries, Datagrams, NextTick;
    var timer := new TimerCompensator(Hz60, now);
    var tickCount: nat := 0;
    NothingRead(now);
    ghost var current := before;
    for k := 0 to |nows|
      invariant timer.startTime == now && timer.dataRate == Hz60 && timer.tickCount == tickCount == TickAt(now, [] + nows[..k])
      invariant |current| == |before| && Shows(sessions, current)
      invariant fresh(timer)
      invariant forall i :: 0 <= i < |current| ==> current[i] == Awoken(before[i], now, [], nows[..k], trig)
    {
      var window := nows[..k + 1];
      assert window[..k] == nows[..k];
      TickGrows(now, [], window);
      var elapsed, wakeUp := timer.WaitForNextTick(nows[k]);
      tickCount := tickCount + elapsed;
      ghost var moved;
      var sent;
      sent, moved := WakeUp(sessions, elapsed, tickCount, timestamps[k], trig, bits, current);
      OneWakeUp(before, current, now, window, elapsed, tickCount, trig);
      current := seq(|before|, i requires 0 <= i < |before| => Awoken(before[i], now, [], window, trig));
    }
    assert nows[..|nows|] == nows;
  }

  lemma NothingRead(start: int)
    ensures TickAt(start, [] + []) == 0
  {
  }

  lemma OneWakeUp(before: seq<Client>, current: seq<Client>, start: int, q: seq<int>, elapsed: nat, tick: nat, trig: Trig)
    requires |current| == |before| && q != []
    requires forall i :: 0 <= i < |before| ==> current[i] == Awoken(before[i], start, [], q[..|q| - 1], trig)
    requires tick == TickAt(start, [] + q) && elapsed == tick - TickAt(start, [] + q[..|q| - 1])
    ensures forall i :: 0 <= i < |before| ==>
              AfterSend(Stepped(current[i], elapsed, trig), tick) == Awoken(before[i], start, [], q, trig)
  {
    hide Stepped, AfterSend, TickAt;
  }

  // ----- physics catch-up -----

  lemma {:induction false} StepNAdds(b: Body, m: nat, n: nat, trig: Trig)
    ensures StepN(b, m + n, trig) == StepN(StepN(b, m, trig), n, trig)
  {
    hide Step;
    if n > 0 {
      StepNAdds(b, m, n - 1, trig);
    }
  }

  lemma {:induction false} StepNIsTicking(s: Session, n: nat, trig: Trig)
    requires s.state == Playing
    ensures Run(s, Ticks(n), trig) == s.(body := StepN(s.body, n, trig))
  {
    hide Step;
    if n > 0 {
      assert Ticks(n)[..n - 1] == Ticks(n - 1) && Ticks(n)[n - 1] == Tick;
      StepNIsTicking(s, n - 1, trig);
    }
  }

  /** Over any window of the worker's life, what a playing session's body becomes depends only on
      how many ticks the window covers, not on how they were batched. */
  lemma {:induction false} BatchingIsInvisible(c: Client, start: int, p: seq<int>, q: seq<int>, trig: Trig)
    requires c.session.state == Playing
    ensures TickAt(start, p) <= TickAt(start, p + q)
    ensures var c' := Awoken(c, start, p, q, trig);
            && c'.session.state == Playing
            && c'.session.body == StepN(c.session.body, TickAt(start, p + q) - TickAt(start, p), trig)
    decreases |q|
  {
    hide Step, TickAt, StepN;
    TickNeverFalls(start, p, q);
    if q == [] {
      assert p + q == p;
      NoSteps(c.session.body, trig);
    } else {
      var before := q[..|q| - 1];
      BatchingIsInvisible(c, start, p, before, trig);
      TickGrows(start, p, q);
      StepNAdds(c.session.body, TickAt(start, p + before) - TickAt(start, p),
                TickAt(start, p + q) - TickAt(start, p + before), trig);
    }
  }

  lemma NoSteps(b: Body, trig: Trig)
    ensures StepN(b, 0, trig) == b
  {
  }

  /** However late the wake-ups of a window come, a session that plays throughout it has taken
      exactly one step per tick scheduled in it, with the outcome of ticking one at a time. The
      ticks reach up to the last clock reading (plus the one the worker then sleeps towards), and
      k of them are k/60 s of scheduled time to within a nanosecond. */
  lemma {:induction false} NoTimeLostOrInvented(c: Client, start: int, p: seq<int>, q: seq<int>, trig: Trig)
    requires c.session.state == Playing && q != [] && Slept(start, Hz60, p + q)
    ensures var first, last, now := TickAt(start, p), TickAt(start, p + q), q[|q| - 1];
            && first < last == FirstTickAfter(start, Hz60, now)
            && Awoken(c, start, p, q, trig).session.body == Run(c.session, Ticks(last - first), trig).body
            && TickTime(start, Hz60, last - 1) <= now < TickTime(start, Hz60, last)
            && -60 < (last - first) * SECOND - (TickTime(start, Hz60, last) - TickTime(start, Hz60, first)) * 60 < 60
  {
    hide TickAt, Run, StepN, Awoken, Slept, FirstTickAfter;
    var first, last := TickAt(start, p), TickAt(start, p + q);
    TickNeverFalls(start, p, q);
    KeepsUp(start, p, q);
    BatchingIsInvisible(c, start, p, q, trig);
    StepNIsTicking(c.session, last - first, trig);
    WindowDoesNotDrift(start, first, last);
  }

  lemma KeepsUp(start: int, p: seq<int>, q: seq<int>)
    requires q != [] && Slept(start, Hz60, p + q)
    ensures var last, now := TickAt(start, p + q), q[|q| - 1];
            && last == FirstTickAfter(start, Hz60, now) && last > 0
            && TickTime(start, Hz60, last - 1) <= now < TickTime(start, Hz60, last)
  {
    SchedulerKeepsUp(start, Hz60, p + q);
    hide TickTime, FirstTickAfter, Slept, TickAfter;
  }

  lemma WindowDoesNotDrift(start: int, first: nat, last: nat)
    ensures -60 < (last - first) * SECOND - (TickTime(start, Hz60, last) - TickTime(start, Hz60, first)) * 60 < 60
  {
    TicksDoNotDrift(start, Hz60, last);
    TicksDoNotDrift(start, Hz60, first);
    hide TickTime;
  }

  /** A session that is paused or stopped comes out of any window exactly as it went in. */
  lemma {:induction false} IdleSessionsRest(c: Client, start: int, p: seq<int>, q: seq<int>, trig: Trig)
    requires c.session.state == Paused || c.session.state == Stopped
    ensures Awoken(c, start, p, q, trig) == c
    decreases |q|
  {
    hide StepN, TickAt;
    if q != [] {
      IdleSessionsRest(c, start, p, q[..|q| - 1], trig);
    }
  }

  /** A playing session nobody can be reached at takes its physics steps but no number. */
  lemma {:induction false} NoEndpointNoNumbers(c: Client, start: int, p: seq<int>, q: seq<int>, trig: Trig)
    requires c.ip == "" || c.session.udpPort == 0
    ensures var c' := Awoken(c, start, p, q, trig);
            && c' == c.(session := c.session.(body := c'.session.body))
            && c'.session.nextSequenceId == c.session.nextSequenceId
    decreases |q|
  {
    hide StepN, TickAt;
    if q != [] {
      NoEndpointNoNumbers(c, start, p, q[..|q| - 1], trig);
    }
  }

  // ----- the rate division -----

  /** A session that is sent datagrams. */
  predicate Receives(c: Client) {
    c.session.state == Playing && c.ip != "" && c.session.udpPort != 0
  }

  predicate IsOdd(k: nat) {
    k % 2 != 0
  }

  /** How many of a window's wake-ups are on a tick a recipient of this rate is served. */
  ghost function Served(start: int, rate: DataRate, p: seq<int>, q: seq<int>): nat
    decreases |q|
  {
    if q == [] then 0
    else
      Served(start, rate, p, q[..|q| - 1]) +
      if rate == Hz30 && IsOdd(TickAt(start, p + q)) then 0 else 1
  }

  /** The datagrams a recipient gets in a window, as its own packet number counts them. */
  ghost function Sent(c: Client, start: int, p: seq<int>, q: seq<int>, trig: Trig): int {
    Awoken(c, start, p, q, trig).session.nextSequenceId - c.session.nextSequenceId
  }

  /** A recipient's packet number moves by one on each tick it is served, and on no other. */
  lemma {:induction false} NumbersCountServedTicks(c: Client, start: int, p: seq<int>, q: seq<int>, trig: Trig)
    requires Receives(c)
    ensures Sent(c, start, p, q, trig) == Served(start, c.session.rate, p, q)
    ensures var c' := Awoken(c, start, p, q, trig);
            Receives(c') && c'.session.rate == c.session.rate && c'.ip == c.ip && c'.session.udpPort == c.session.udpPort
    decreases |q|
  {
    hide StepN, TickAt;
    if q != [] {
      NumbersCountServedTicks(c, start, p, q[..|q| - 1], trig);
    }
  }

  /** Nobody is ever sent more than the rate allows, however late the wake-ups: at 30 Hz at most
      one datagram per even tick of the window, at 60 Hz one per wake-up and at most one per tick. */
  lemma {:induction false} RateIsNeverExceeded(c: Client, start: int, p: seq<int>, q: seq<int>, trig: Trig)
    requires Receives(c)
    ensures var sent, first, last := Sent(c, start, p, q, trig), TickAt(start, p), TickAt(start, p + q);
            match c.session.rate
            case Hz30 => 0 <= sent <= last / 2 - first / 2
            case Hz60 => sent == |q| <= last - first
  {
    hide TickAt, Awoken;
    NumbersCountServedTicks(c, start, p, q, trig);
    ServedAtMost(start, p, q);
    TickNeverFalls(start, p, q);
  }

  lemma {:induction false} ServedAtMost(start: int, p: seq<int>, q: seq<int>)
    ensures Served(start, Hz30, p, q) <= TickAt(start, p + q) / 2 - TickAt(start, p) / 2
    ensures Served(start, Hz60, p, q) == |q|
    decreases |q|
  {
    hide TickAt;
    if q == [] {
      assert p + q == p;
    } else {
      ServedAtMost(start, p, q[..|q| - 1]);
      TickGrows(start, p, q);
    }
  }

  /** The ticks the last wait of a window took. */
  ghost function LastWait(start: int, p: seq<int>, q: seq<int>): (n: nat)
    requires q != []
    ensures n > 0
  {
    TickGrows(start, p, q);
    TickAt(start, p + q) - TickAt(start, p + q[..|q| - 1])
  }

  /** No wait of the window skips an even tick: from an odd one each takes a single tick, from an
      even one at most two. */
  ghost predicate NoEvenTickSkipped(start: int, p: seq<int>, q: seq<int>)
    decreases |q|
  {
    q == [] ||
    (NoEvenTickSkipped(start, p, q[..|q| - 1]) &&
     LastWait(start, p, q) <= if IsOdd(TickAt(start, p + q[..|q| - 1])) then 1 else 2)
  }

  /** Every wait of the window takes a single tick. */
  ghost predicate NoTickSkipped(start: int, p: seq<int>, q: seq<int>)
    decreases |q|
  {
    q == [] || (NoTickSkipped(start, p, q[..|q| - 1]) && LastWait(start, p, q) == 1)
  }

  /** Every wait of the window takes an even number of ticks, except a first one from an even
      tick, which takes an odd number. */
  ghost predicate OnlyOddTicks(start: int, p: seq<int>, q: seq<int>)
    decreases |q|
  {
    q == [] ||
    (OnlyOddTicks(start, p, q[..|q| - 1]) &&
     (IsOdd(LastWait(start, p, q)) <==> |q| == 1 && !IsOdd(TickAt(start, p))))
  }

  /** A recipient gets its full rate in a window exactly when no wait skips an even tick (30 Hz),
      or any tick at all (60 Hz). */
  lemma {:induction false} FullRateIff(c: Client, start: int, p: seq<int>, q: seq<int>, trig: Trig)
    requires Receives(c)
    ensures var sent, first, last := Sent(c, start, p, q, trig), TickAt(start, p), TickAt(start, p + q);
            match c.session.rate
            case Hz30 => sent == last / 2 - first / 2 <==> NoEvenTickSkipped(start, p, q)
            case Hz60 => sent == last - first <==> NoTickSkipped(start, p, q)
  {
    hide TickAt, Awoken;
    NumbersCountServedTicks(c, start, p, q, trig);
    match c.session.rate
    case Hz30 => HalfServedIff(start, p, q);
    case Hz60 => AllServedIff(start, p, q);
  }

  /** Among `wait` ticks after `tick` the even ones are just the last, if it is even, exactly when
      the wait is short enough. */
  lemma HalfOfOneWait(tick: nat, wait: nat)
    requires wait > 0
    ensures var even := if IsOdd(tick + wait) then 0 else 1;
            && even <= (tick + wait) / 2 - tick / 2
            && (even == (tick + wait) / 2 - tick / 2 <==> wait <= if IsOdd(tick) then 1 else 2)
  {
  }

  lemma {:induction false} HalfServedIff(start: int, p: seq<int>, q: seq<int>)
    ensures Served(start, Hz30, p, q) == TickAt(start, p + q) / 2 - TickAt(start, p) / 2 <==> NoEvenTickSkipped(start, p, q)
    decreases |q|
  {
    hide TickAt;
    if q == [] {
      assert p + q == p;
    } else {
      HalfServedIff(start, p, q[..|q| - 1]);
      ServedAtMost(start, p, q[..|q| - 1]);
      HalfOfOneWait(TickAt(start, p + q[..|q| - 1]), LastWait(start, p, q));
      assert TickAt(start, p + q) == TickAt(start, p + q[..|q| - 1]) + LastWait(start, p, q);
    }
  }

  lemma {:induction false} AllServedIff(start: int, p: seq<int>, q: seq<int>)
    ensures Served(start, Hz60, p, q) == TickAt(start, p + q) - TickAt(start, p) <==> NoTickSkipped(start, p, q)
    decreases |q|
  {
    hide TickAt;
    if q == [] {
      assert p + q == p;
    } else {
      AllServedIff(start, p, q[..|q| - 1]);
      ServedAtMost(start, p, q[..|q| - 1]);
      TickNeverFalls(start, p, q[..|q| - 1]);
      assert TickAt(start, p + q) == TickAt(start, p + q[..|q| - 1]) + LastWait(start, p, q);
    }
  }

  /** In particular a punctual worker serves a 30 Hz recipient on exactly every second tick. */
  lemma {:induction false} PunctualServesEverySecondTick(c: Client, start: int, p: seq<int>, q: seq<int>, trig: Trig)
    requires Receives(c) && c.session.rate == Hz30 && NoTickSkipped(start, p, q)
    ensures TickAt(start, p + q) == TickAt(start, p) + |q|
    ensures Sent(c, start, p, q, trig) == (TickAt(start, p) + |q|) / 2 - TickAt(start, p) / 2
  {
    hide TickAt, Awoken, NoTickSkipped, NoEvenTickSkipped;
    AllServedIff(start, p, q);
    ServedAtMost(start, p, q);
    SingleTicksSkipNone(start, p, q);
    FullRateIff(c, start, p, q, trig);
  }

  lemma {:induction false} SingleTicksSkipNone(start: int, p: seq<int>, q: seq<int>)
    requires NoTickSkipped(start, p, q)
    ensures NoEvenTickSkipped(start, p, q)
    decreases |q|
  {
    hide TickAt;
    if q != [] {
      SingleTicksSkipNone(start, p, q[..|q| - 1]);
    }
  }

  /** A 30 Hz recipient gets nothing at all in a window exactly when its waits are like that. */
  lemma {:induction false} StarvedIff(c: Client, start: int, p: seq<int>, q: seq<int>, trig: Trig)
    requires Receives(c) && c.session.rate == Hz30
    ensures Sent(c, start, p, q, trig) == 0 <==> OnlyOddTicks(start, p, q)
  {
    hide TickAt, Awoken, OnlyOddTicks;
    NumbersCountServedTicks(c, start, p, q, trig);
    NoneServedIff(start, p, q);
  }

  lemma {:induction false} NoneServedIff(start: int, p: seq<int>, q: seq<int>)
    ensures Served(start, Hz30, p, q) == 0 <==> OnlyOddTicks(start, p, q)
    ensures Served(start, Hz30, p, q) == 0 && q != [] ==> IsOdd(TickAt(start, p + q))
    decreases |q|
  {
    hide TickAt;
    if q != [] {
      NoneServedIff(start, p, q[..|q| - 1]);
      assert q[..|q| - 1] == [] ==> p + q[..|q| - 1] == p;
    }
  }

  /** Readings that make every wait after the first skip one tick. */
  ghost function AlwaysOneBehind(start: int, n: nat): seq<int> {
    if n == 0 then [] else AlwaysOneBehind(start, n - 1) + [TickTime(start, Hz60, 2 * (n - 1))]
  }

  lemma OddTickNext(start: int, n: nat)
    requires n > 0
    ensures var previous := if n == 1 then 0 else 2 * n - 3;
            && NextTick(start, Hz60, previous, TickTime(start, Hz60, 2 * (n - 1))) == 2 * n - 1
            && TickTime(start, Hz60, previous) <= TickTime(start, Hz60, 2 * (n - 1))
            && IsOdd(2 * n - 1)
  {
    var due := 2 * (n - 1);
    var now := TickTime(start, Hz60, due);
    FirstTickAfterIsLeast(start, Hz60, now, due);
    TickTimesIncrease(start, Hz60, due);
    FirstTickAfterIsLeast(start, Hz60, now, due + 1);
    if n > 1 {
      TickTimesIncrease(start, Hz60, due - 1);
    }
  }

  /** Such windows exist: a worker that is a tick late at every wake-up lands on odd ticks for
      ever, and a 30 Hz recipient is never sent anything. */
  lemma {:induction false} SkippedTicksCanStarve(c: Client, start: int, n: nat, trig: Trig)
    requires Receives(c) && c.session.rate == Hz30
    ensures var nows := AlwaysOneBehind(start, n);
            && |nows| == n && Slept(start, Hz60, nows)
            && TickAt(start, nows) == (if n == 0 then 0 else 2 * n - 1)
            && Sent(c, start, [], nows, trig) == 0
  {
    hide Awoken;
    OneBehindServesNobody(start, n);
    NumbersCountServedTicks(c, start, [], AlwaysOneBehind(start, n), trig);
  }

  lemma {:induction false} OneBehindServesNobody(start: int, n: nat)
    ensures var nows := AlwaysOneBehind(start, n);
            && |nows| == n && Slept(start, Hz60, nows)
            && TickAt(start, nows) == (if n == 0 then 0 else 2 * n - 1)
            && Served(start, Hz30, [], nows) == 0
  {
    hide TickTime, NextTick, IsOdd, Slept, TickAt, Served;
    if n == 0 {
      NothingSlept(start);
    } else {
      OneBehindServesNobody(start, n - 1);
      OneMoreBehind(start, AlwaysOneBehind(start, n - 1), n);
    }
  }

  lemma OneMoreBehind(start: int, p: seq<int>, n: nat)
    requires n > 0 && Slept(start, Hz60, p) && Served(start, Hz30, [], p) == 0
    requires TickAt(start, p) == if n == 1 then 0 else 2 * n - 3
    ensures var nows := p + [TickTime(start, Hz60, 2 * (n - 1))];
            && Slept(start, Hz60, nows)
            && TickAt(start, nows) == 2 * n - 1
            && Served(start, Hz30, [], nows) == 0
  {
    OddTickNext(start, n);
    var now := TickTime(start, Hz60, 2 * (n - 1));
    var nows := p + [now];
    hide TickTime, NextTick, IsOdd, Slept;
    SleptGrows(start, p, now);
    assert nows[..|nows| - 1] == p;
    assert [] + nows == nows;
  }

  lemma NothingSlept(start: int)
    ensures Slept(start, Hz60, []) && TickAt(start, []) == 0 && Served(start, Hz30, [], []) == 0
  {
  }

  lemma SleptGrows(start: int, p: seq<int>, now: int)
    requires Slept(start, Hz60, p) && TickTime(start, Hz60, TickAfter(start, Hz60, p)) <= now
    ensures Slept(start, Hz60, p + [now])
  {
    hide TickTime, TickAfter;
    var nows := p + [now];
    forall i | 0 <= i < |nows|
      ensures TickTime(start, Hz60, TickAfter(start, Hz60, nows[..i])) <= nows[i]
    {
      assert nows[..i] == p[..i];
      if i == |p| {
        assert p[..i] == p;
      }
    }
  }
}
