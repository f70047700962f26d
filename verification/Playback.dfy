/** Do client and server agree on who is playing? One connection from its registration on:
    commands, the server handling them later in order, datagrams and server work in between. */
module Playback {
  import opened ByteOrder
  import opened BinarySerializer
  import opened Protocol
  import opened Streaming
  import opened Metrics
  import opened Worlds
  import opened Sessions
  import opened ControlChannel
  import opened ClientReceiver
  import opened GameClients

  datatype Channel = Channel(client: Client, server: Control, pending: seq<ControlMessage>, up: bool)

  /** A connection just made by a client whose collector expects `rate`. */
  function Opened(rate: DataRate, port: u16): Channel {
    Channel(Client(false, Fresh(rate), EMPTY_WORLD), Control(NEW_SESSION, false), [RegisterUdpPort(port)], true)
  }

  datatype Event =
    | Issue(command: Command, sends: bool, report: StopReport, now: int)
    | Deliver                                    // the server handles its next message
    | Work(body: Body, nextSequenceId: nat)      // physics, steering, datagrams sent
    | Arrival(bytes: seq<byte>, now: int)        // a datagram reaches the client

  /** A send that fails leaves the connection broken: no later one succeeds. */
  function Happen(s: Channel, e: Event): Channel {
    match e
    case Issue(command, sends, report, now) =>
      var sent := sends && s.up;
      Channel(Commanded(s.client, command, sent, now), s.server,
              if sent then s.pending + [MessageOf(command, report)] else s.pending, sent)
    case Deliver =>
      if s.pending == [] then s else s.(server := Handle(s.server, s.pending[0]), pending := s.pending[1..])
    case Work(body, nextSequenceId) =>
      s.(server := s.server.(session := s.server.session.(body := body, nextSequenceId := nextSequenceId)))
    case Arrival(bytes, now) => s.(client := Received(s.client, bytes, now))
  }

  ghost function After(s: Channel, run: seq<Event>): Channel {
    if run == [] then s else Happen(After(s, run[..|run| - 1]), run[|run| - 1])
  }

  /** What the server will be once it has handled everything on the way to it. */
  ghost function Folded(s: Channel): Control {
    HandleAll(s.server, s.pending)
  }

  /** All that commands read of a control state. */
  ghost predicate SameControl(c: Control, d: Control) {
    c.registered == d.registered && c.session.state == d.session.state && c.session.rate == d.session.rate
  }

  lemma {:induction false} FoldIgnoresWork(c: Control, d: Control, ms: seq<ControlMessage>)
    requires SameControl(c, d)
    ensures SameControl(HandleAll(c, ms), HandleAll(d, ms))
    decreases ms
  {
    if ms != [] {
      FoldIgnoresWork(Handle(c, ms[0]), Handle(d, ms[0]), ms[1..]);
    }
  }

  /** Only a command that was sent moves the fold; delivery and server work do not. */
  lemma FoldStep(s: Channel, e: Event)
    ensures var s' := Happen(s, e);
            if e.Issue? && e.sends && s.up
            then Folded(s') == Handle(Folded(s), MessageOf(e.command, e.report))
            else SameControl(Folded(s'), Folded(s))
  {
    hide Handle, Received, Commanded;
    match e
    case Issue(command, sends, report, now) =>
      if sends && s.up {
        HandleAllSnoc(s.server, s.pending, MessageOf(command, report));
      }
    case Work(body, nextSequenceId) => FoldIgnoresWork(Happen(s, e).server, s.server, s.pending);
    case _ =>
  }

  // ----- who is playing -----

  ghost predicate Agree(s: Channel) {
    s.client.active <==> Folded(s).session.state == Playing
  }

  /** A Stop that cannot be sent, issued by a client that is playing. */
  ghost predicate LosesStop(s: Channel, e: Event) {
    e.Issue? && e.command == StopCommand && !(e.sends && s.up) && s.client.active
  }

  ghost predicate LostStop(s: Channel, run: seq<Event>) {
    run != [] &&
    (LostStop(s, run[..|run| - 1]) || LosesStop(After(s, run[..|run| - 1]), run[|run| - 1]))
  }

  lemma ReceivingKeepsPlaying(c: Client, bytes: seq<byte>, now: int)
    ensures var c' := Received(c, bytes, now);
            && c'.active == c.active
            && c'.collector.pausing.paused == c.collector.pausing.paused
            && c'.collector.timing.rate == c.collector.timing.rate
  {
    hide TakeState, SeeAll, Arrive;
  }

  /** One step keeps agreement unless it loses a Stop. */
  lemma AgreeStepIff(s: Channel, e: Event)
    requires Folded(s).registered && Agree(s)
    ensures Folded(Happen(s, e)).registered
    ensures Agree(Happen(s, e)) <==> !LosesStop(s, e)
  {
    hide Folded, Received, Apply, Fresh;
    FoldStep(s, e);
    if e.Arrival? {
      ReceivingKeepsPlaying(s.client, e.bytes, e.now);
    }
  }

  /** The state a lost Stop leaves: nothing more can be sent to repair it. */
  ghost predicate Estranged(s: Channel) {
    !s.up && !s.client.active && Folded(s).registered && Folded(s).session.state == Playing
  }

  lemma EstrangedStep(s: Channel, e: Event)
    ensures Estranged(s) ==> Estranged(Happen(s, e))
    ensures Folded(s).registered && Agree(s) && LosesStop(s, e) ==> Estranged(Happen(s, e))
  {
    hide Folded, Received, Apply, Fresh;
    FoldStep(s, e);
    if e.Arrival? {
      ReceivingKeepsPlaying(s.client, e.bytes, e.now);
    }
  }

  /** In every run over a connection registered with a non-zero port, the client believes itself
      playing exactly when the server will be playing once it has handled everything sent,
      unless a playing client failed to send a Stop; and then they disagree for good. */
  lemma {:induction false} PlaybackAgreesIff(rate: DataRate, port: u16, run: seq<Event>)
    requires port != 0
    ensures var s := After(Opened(rate, port), run);
            Folded(s).registered && (Agree(s) <==> !LostStop(Opened(rate, port), run)) && (Agree(s) || Estranged(s))
  {
    hide Happen, LosesStop, Handle;
    var s0 := Opened(rate, port);
    if run == [] {
      OpenedFolds(rate, port);
    } else {
      var p, e := run[..|run| - 1], run[|run| - 1];
      PlaybackAgreesIff(rate, port, p);
      var s := After(s0, p);
      if Agree(s) {
        AgreeStepIff(s, e);
      }
      EstrangedStep(s, e);
    }
  }

  lemma OpenedFolds(rate: DataRate, port: u16)
    ensures var c := Folded(Opened(rate, port));
            c.registered == (port != 0) && c.session.state == Stopped && c.session.rate == Hz30
  {
    var s := Opened(rate, port);
    assert s.pending[1..] == [];
    assert HandleAll(s.server, s.pending) == HandleAll(Handle(s.server, s.pending[0]), []);
  }

  /** With port 0 the server never registers the client and never plays for it. */
  lemma {:induction false} PortZeroNeverPlays(rate: DataRate, run: seq<Event>)
    ensures var c := Folded(After(Opened(rate, 0), run)); !c.registered && c.session.state == Stopped
  {
    hide Happen;
    if run == [] {
      OpenedFolds(rate, 0);
    } else {
      PortZeroNeverPlays(rate, run[..|run| - 1]);
      FoldStep(After(Opened(rate, 0), run[..|run| - 1]), run[|run| - 1]);
    }
  }

  // ----- at which rate -----

  ghost predicate RateSent(s: Channel, run: seq<Event>) {
    run != [] &&
    var p, e := run[..|run| - 1], run[|run| - 1];
    RateSent(s, p) || (e.Issue? && e.command.RateCommand? && e.sends && After(s, p).up)
  }

  lemma RateStep(s: Channel, e: Event)
    requires Folded(s).registered
    ensures var s' := Happen(s, e);
            if e.Issue? && e.command.RateCommand? && e.sends && s.up
            then s'.client.collector.timing.rate == Folded(s').session.rate == e.command.rate
            else s'.client.collector.timing.rate == s.client.collector.timing.rate &&
                 Folded(s').session.rate == Folded(s).session.rate
  {
    hide Folded, Received;
    FoldStep(s, e);
    if e.Arrival? {
      ReceivingKeepsPlaying(s.client, e.bytes, e.now);
    }
  }

  /** The expected rate, which reconnecting does not reset, is the server's own exactly when it
      was 30 Hz to begin with or a SetRate went out on this connection. */
  lemma {:induction false} RateAgreesIff(rate: DataRate, port: u16, run: seq<Event>)
    requires port != 0
    ensures var s := After(Opened(rate, port), run);
            s.client.collector.timing.rate == Folded(s).session.rate <==> rate == Hz30 || RateSent(Opened(rate, port), run)
  {
    var s := RateTracked(rate, port, run);
  }

  lemma {:induction false} RateTracked(rate: DataRate, port: u16, run: seq<Event>) returns (s: Channel)
    requires port != 0
    ensures s == After(Opened(rate, port), run)
    ensures if RateSent(Opened(rate, port), run) then s.client.collector.timing.rate == Folded(s).session.rate
            else s.client.collector.timing.rate == rate && Folded(s).session.rate == Hz30
  {
    hide Happen, Handle, Folded;
    s := After(Opened(rate, port), run);
    if run == [] {
      OpenedFolds(rate, port);
    } else {
      var p, e := run[..|run| - 1], run[|run| - 1];
      var s' := RateTracked(rate, port, p);
      PlaybackAgreesIff(rate, port, p);
      RateStep(s', e);
    }
  }

  // ----- pauses -----

  /** A collector whose clock stands still belongs to a client that counts nothing, in every
      run, failed sends included. */
  lemma {:induction false} PausedIsInactive(rate: DataRate, port: u16, run: seq<Event>)
    ensures var c := After(Opened(rate, port), run).client; c.collector.pausing.paused ==> !c.active
  {
    hide Received, Folded;
    if run != [] {
      var s, e := After(Opened(rate, port), run[..|run| - 1]), run[|run| - 1];
      PausedIsInactive(rate, port, run[..|run| - 1]);
      if e.Arrival? {
        ReceivingKeepsPlaying(s.client, e.bytes, e.now);
      }
    }
  }

  // ----- stragglers -----

  ghost predicate SendsPlay(s: Channel, e: Event) {
    e.Issue? && e.command == PlayCommand && e.sends && s.up
  }

  ghost predicate NoPlaySent(s: Channel, run: seq<Event>) {
    run == [] ||
    (NoPlaySent(s, run[..|run| - 1]) && !SendsPlay(After(s, run[..|run| - 1]), run[|run| - 1]))
  }

  function WithoutArrivals(run: seq<Event>): seq<Event> {
    if run == [] then []
    else
      var before := WithoutArrivals(run[..|run| - 1]);
      if run[|run| - 1].Arrival? then before else before + [run[|run| - 1]]
  }

  /** An inactive client that sends no Play stays inactive and keeps its world, and whatever
      datagrams reach it might as well not have. */
  lemma {:induction false} InactiveIgnoresArrivals(s: Channel, run: seq<Event>)
    requires !s.client.active && NoPlaySent(s, run)
    ensures var s' := After(s, run); !s'.client.active && s'.client.world == s.client.world
    ensures After(s, run) == After(s, WithoutArrivals(run))
  {
    hide Apply, Handle, TakeState, SeeAll;
    if run != [] {
      var p, e := run[..|run| - 1], run[|run| - 1];
      InactiveIgnoresArrivals(s, p);
      if !e.Arrival? {
        var q := WithoutArrivals(p);
        assert (q + [e])[..|q|] == q;
      }
    }
  }

  /** A Pause that goes out, and any Stop, silences the client until its next Play: stragglers are
      neither counted nor shown. */
  lemma {:induction false} PauseAndStopSilence(s: Channel, e: Event, run: seq<Event>)
    requires e.Issue? && ((e.command == PauseCommand && e.sends && s.up) || e.command == StopCommand)
    requires NoPlaySent(Happen(s, e), run)
    ensures var s1 := Happen(s, e);
            var s2 := After(s1, run);
            && !s2.client.active && s2.client.world == s.client.world
            && s2 == After(s1, WithoutArrivals(run))
            && ((forall i :: 0 <= i < |run| ==> !run[i].Issue?) ==> s2.client == s1.client)
  {
    hide Apply, Fresh;
    InactiveIgnoresArrivals(Happen(s, e), run);
    if forall i :: 0 <= i < |run| ==> !run[i].Issue? {
      NothingIssued(Happen(s, e), run);
    }
  }

  lemma {:induction false} NothingIssued(s: Channel, run: seq<Event>)
    requires !s.client.active && forall i :: 0 <= i < |run| ==> !run[i].Issue?
    ensures After(s, run).client == s.client
  {
    hide Handle, TakeState, SeeAll, Apply;
    if run != [] {
      NothingIssued(s, run[..|run| - 1]);
    }
  }

  // ----- what the commands do to the statistics -----

  /** Stop and Reset start over on both sides: the server's numbering and the client's statistics,
      all of them zero but the expected rate. */
  lemma RestartTogether(s: Channel, command: Command, report: StopReport, now: int, later: int)
    requires s.up && Folded(s).registered && (command == StopCommand || command == ResetCommand)
    ensures var s' := Happen(s, Issue(command, true, report, now));
            && Folded(s').session.nextSequenceId == 0
            && SnapshotOf(s'.client.collector, later) == Snapshot(0.0, 0, 0, 0, 0.0, 0, 0.0, 0.0, 0.0, 0, 0.0)
            && s'.client.collector.timing.rate == s.client.collector.timing.rate
            && s'.client.active == (command == ResetCommand && s.client.active)
            && s'.client.world == s.client.world
  {
    hide Folded;
    FoldStep(s, Issue(command, true, report, now));
  }

  /** Play, Pause and SetRate start nothing over on either side. */
  lemma OthersKeepCounts(s: Channel, command: Command, sends: bool, report: StopReport, now: int)
    requires Folded(s).registered && (command == PlayCommand || command == PauseCommand || command.RateCommand?)
    ensures var s' := Happen(s, Issue(command, sends, report, now));
            && Folded(s').session.nextSequenceId == Folded(s).session.nextSequenceId
            && Folded(s').session.body == Folded(s).session.body
            && s'.client.collector.loss == s.client.collector.loss
            && s'.client.collector.timing.samples == s.client.collector.timing.samples
            && s'.client.world == s.client.world
  {
    var e := Issue(command, sends, report, now);
    if sends && s.up {
      FoldStep(s, e);
    } else {
      assert Folded(Happen(s, e)) == Folded(s);
    }
    hide Folded;
  }

  ghost predicate NoRestartIssued(s: Channel, run: seq<Event>) {
    forall i :: 0 <= i < |run| && run[i].Issue? ==> run[i].command != StopCommand && run[i].command != ResetCommand
  }

  /** From a Pause that goes out until the next Play, Stop or Reset the client's elapsed time
      stands still at what it was when the Pause was issued. */
  lemma {:induction false} PauseStopsTheClock(s: Channel, report: StopReport, now: int, run: seq<Event>, t: int)
    requires s.up && s.client.collector.loss.started
    requires var s1 := Happen(s, Issue(PauseCommand, true, report, now)); NoPlaySent(s1, run) && NoRestartIssued(s1, run)
    ensures var s2 := After(Happen(s, Issue(PauseCommand, true, report, now)), run);
            s2.client.collector.pausing.ElapsedNs(t) == s.client.collector.pausing.ElapsedNs(now)
  {
    var s1 := Happen(s, Issue(PauseCommand, true, report, now));
    StaysPaused(s1, run);
  }

  lemma {:induction false} StaysPaused(s: Channel, run: seq<Event>)
    requires !s.client.active && s.client.collector.pausing.paused && s.client.collector.loss.started
    requires NoPlaySent(s, run) && NoRestartIssued(s, run)
    ensures var c := After(s, run).client;
            !c.active && c.collector.pausing == s.client.collector.pausing && c.collector.loss.started
  {
    hide Handle, TakeState, SeeAll, Arrive, ArriveTiming;
    if run != [] {
      StaysPaused(s, run[..|run| - 1]);
    }
  }

  // ----- down to the bytes -----

  lemma StopSplit(report: StopReport, rest: seq<byte>)
    ensures PutStopReport(report, []) + rest == PutStopReport(report, rest)
  {
    hide AppStopReport, PutStopReport;
    AppPutStopReport([], report, []);
    AppPutStopReport([], report, rest);
    assert AppStopReport([], report) + [] == AppStopReport([], report);
    assert [] + PutStopReport(report, []) == PutStopReport(report, []);
    assert [] + PutStopReport(report, rest) == PutStopReport(report, rest);
  }

  lemma PutMessageSplit(m: ControlMessage, rest: seq<byte>)
    ensures PutMessage(m, []) + rest == PutMessage(m, rest)
  {
    hide PutStopReport, BigEndian16, BigEndian32;
    match m
    case RegisterUdpPort(port) =>
      assert Put16(port, []) + rest == Put16(port, rest);
      HeaderSplit(REGISTER_UDP_PORT, Put16(port, []), rest);
    case SetRateMessage(hz) =>
      assert Put32(hz, []) + rest == Put32(hz, rest);
      HeaderSplit(SET_RATE, Put32(hz, []), rest);
    case StopMessage(report) =>
      StopSplit(report, rest);
      HeaderSplit(STOP, PutStopReport(report, []), rest);
    case _ =>
      HeaderSplit(PLAY, [], rest);
      HeaderSplit(PAUSE, [], rest);
      HeaderSplit(RESET, [], rest);
      assert [] + rest == rest;
  }

  lemma HeaderSplit(kind: byte, payload: seq<byte>, rest: seq<byte>)
    ensures Put8(kind, payload) + rest == Put8(kind, payload + rest)
  {
  }

  /** A message written behind a stream of messages makes a stream of one message more. */
  lemma {:induction false} StreamGrows(ms: seq<ControlMessage>, m: ControlMessage)
    ensures PutMessages(ms, []) + PutMessage(m, []) == PutMessages(ms + [m], [])
  {
    hide PutMessage;
    if ms == [] {
      assert [m][1..] == [];
    } else {
      var rest := PutMessages(ms[1..], []);
      StreamGrows(ms[1..], m);
      assert (ms + [m])[1..] == ms[1..] + [m];
      PutMessageSplit(ms[0], rest);
      PutMessageSplit(ms[0], rest + PutMessage(m, []));
    }
  }

  /** Everything the client has written on this connection. */
  ghost function Written(rate: DataRate, port: u16, run: seq<Event>): seq<ControlMessage> {
    if run == [] then [RegisterUdpPort(port)]
    else
      var p, e := run[..|run| - 1], run[|run| - 1];
      Written(rate, port, p) +
      if e.Issue? && e.sends && After(Opened(rate, port), p).up then [MessageOf(e.command, e.report)] else []
  }

  lemma {:induction false} WrittenIsFold(rate: DataRate, port: u16, run: seq<Event>)
    ensures SameControl(HandleAll(Control(NEW_SESSION, false), Written(rate, port, run)),
                        Folded(After(Opened(rate, port), run)))
  {
    hide Happen, Handle, HandleAll, Folded;
    if run == [] {
      SameStart(rate, port);
    } else {
      var p, e := run[..|run| - 1], run[|run| - 1];
      var s := After(Opened(rate, port), p);
      WrittenIsFold(rate, port, p);
      FoldStep(s, e);
      if e.Issue? && e.sends && s.up {
        var m := MessageOf(e.command, e.report);
        HandleAllSnoc(Control(NEW_SESSION, false), Written(rate, port, p), m);
        HandleKeepsSame(HandleAll(Control(NEW_SESSION, false), Written(rate, port, p)), Folded(s), m);
      } else {
        assert Written(rate, port, run) == Written(rate, port, p);
      }
    }
  }

  lemma SameStart(rate: DataRate, port: u16)
    ensures HandleAll(Control(NEW_SESSION, false), [RegisterUdpPort(port)]) == Folded(Opened(rate, port))
  {
  }

  lemma HandleKeepsSame(c: Control, d: Control, m: ControlMessage)
    requires SameControl(c, d)
    ensures SameControl(Handle(c, m), Handle(d, m))
  {
  }

  /** End to end: a worker that reads the very bytes the client wrote, however cut up, ends with
      its session playing exactly when the client believes so, unless a Stop was lost. */
  lemma {:induction false} BytesAgreeIff(rate: DataRate, port: u16, run: seq<Event>, fuel: nat)
    requires port != 0 && fuel >= |Written(rate, port, run)|
    ensures var c := Serve(PutMessages(Written(rate, port, run), []), Control(NEW_SESSION, false), fuel);
            (After(Opened(rate, port), run).client.active <==> c.session.state == Playing) <==>
            !LostStop(Opened(rate, port), run)
  {
    hide Happen, Handle, HandleAll, Serve, PutMessages, Written, LostStop;
    var ms := Written(rate, port, run);
    StreamIsMessages(ms, Control(NEW_SESSION, false), fuel);
    assert ms[..|ms|] == ms;
    WrittenIsFold(rate, port, run);
    PlaybackAgreesIff(rate, port, run);
  }
}
