/** The control stream a server worker reads (Server/TcpControlServer.cpp): one header byte,
    then as many payload bytes as that type carries. */
module ControlChannel {
  import opened ByteOrder
  import opened BinarySerializer
  import opened Protocol
  import opened Tcp
  import opened Sessions

  /** The messages a client may send on the control channel. */
  datatype ControlMessage =
    | RegisterUdpPort(port: u16)
    | PlayMessage
    | PauseMessage
    | StopMessage(report: StopReport)
    | ResetMessage
    | SetRateMessage(hz: bv32)

  function PutMessage(m: ControlMessage, rest: seq<byte>): (r: seq<byte>)
    ensures |r| > |rest|
  {
    match m
    case RegisterUdpPort(port) => Put8(REGISTER_UDP_PORT, Put16(port, rest))
    case PlayMessage => Put8(PLAY, rest)
    case PauseMessage => Put8(PAUSE, rest)
    case StopMessage(report) => Put8(STOP, PutStopReport(report, rest))
    case ResetMessage => Put8(RESET, rest)
    case SetRateMessage(hz) => Put8(SET_RATE, Put32(hz, rest))
  }

  function PutMessages(ms: seq<ControlMessage>, rest: seq<byte>): seq<byte> {
    if ms == [] then rest else PutMessage(ms[0], PutMessages(ms[1..], rest))
  }

  /** What a worker keeps: its session and whether a UDP endpoint is registered. */
  datatype Control = Control(session: Session, registered: bool)

  /** The effect of one message. Before registration commands are read and dropped; port 0
      revokes a registration but leaves the endpoint. */
  function Handle(c: Control, m: ControlMessage): Control {
    if m.RegisterUdpPort? then
      if m.port == 0 then c.(registered := false)
      else Control(c.session.(udpPort := m.port), true)
    else if !c.registered then c
    else
      c.(session :=
        match m
        case PlayMessage => PlayedSession(c.session)
        case PauseMessage => PausedSession(c.session)
        case StopMessage(_) => StoppedSession(c.session)
        case ResetMessage => ResetSession(c.session)
        case SetRateMessage(hz) => WithRate(c.session, hz)
        case RegisterUdpPort(_) => c.session)
  }

  function HandleAll(c: Control, ms: seq<ControlMessage>): Control
    decreases ms
  {
    if ms == [] then c else HandleAll(Handle(c, ms[0]), ms[1..])
  }

  lemma {:induction false} HandleAllSnoc(c: Control, ms: seq<ControlMessage>, m: ControlMessage)
    ensures HandleAll(c, ms + [m]) == Handle(HandleAll(c, ms), m)
    decreases ms
  {
    hide Handle;
    if ms == [] {
      assert [] + [m] == [m];
      assert [m][1..] == [];
    } else {
      HandleAllSnoc(Handle(c, ms[0]), ms[1..], m);
      assert (ms + [m])[1..] == ms[1..] + [m];
    }
  }

  // ----- decoding a byte stream -----

  /** Ended: the stream stopped short. Refused: a type that does not belong on the channel. */
  datatype Outcome = Ended | Refused | Served(control: Control, rest: seq<byte>)

  function ServeOne(b: seq<byte>, c: Control): Outcome {
    match Take8(b)
    case Short => Ended
    case Parsed(kind, payload) =>
      if kind == REGISTER_UDP_PORT then
        match Take16(payload)
        case Short => Ended
        case Parsed(port, rest) => Served(Handle(c, RegisterUdpPort(port)), rest)
      else if kind == SET_RATE then
        match Take32(payload)
        case Short => Ended
        case Parsed(hz, rest) => Served(Handle(c, SetRateMessage(hz)), rest)
      else if kind == STOP then
        match TakeStopReport(payload)
        case Short => Ended
        case Parsed(report, rest) => Served(Handle(c, StopMessage(report)), rest)
      else if !c.registered then Served(c, payload)
      else if kind == PLAY then Served(Handle(c, PlayMessage), payload)
      else if kind == PAUSE then Served(Handle(c, PauseMessage), payload)
      else if kind == RESET then Served(Handle(c, ResetMessage), payload)
      else Refused
  }

  lemma ServeOneConsumes(b: seq<byte>, c: Control)
    ensures ServeOne(b, c).Served? ==> |ServeOne(b, c).rest| < |b|
  {
    hide Handle, FromBigEndian16, FromBigEndian32, TakeStopReport;
    if |b| > 0 {
      ReportIsLong(b[1..]);
    }
  }

  lemma ReportIsLong(b: seq<byte>)
    ensures TakeStopReport(b).Parsed? ==> |TakeStopReport(b).rest| == |b| - 120
  {
    hide TakeStopReport, PutStopReport;
    if TakeStopReport(b).Parsed? {
      PutTakeStopReport(b);
      assert |PutStopReport(TakeStopReport(b).value, TakeStopReport(b).rest)| == 120 + |TakeStopReport(b).rest|;
    }
  }

  /** The state after at most `fuel` messages off a stream. */
  ghost function Serve(b: seq<byte>, c: Control, fuel: nat): Control
    decreases fuel
  {
    if fuel == 0 || !ServeOne(b, c).Served? then c
    else Serve(ServeOne(b, c).rest, ServeOne(b, c).control, fuel - 1)
  }

  /** Each legal message is decoded as itself and takes exactly its own bytes, whether or not
      the session is registered. */
  lemma ServesOneMessage(m: ControlMessage, rest: seq<byte>, c: Control)
    ensures ServeOne(PutMessage(m, rest), c) == Served(Handle(c, m), rest)
  {
    hide Take16, Put16, Take32, Put32, TakeStopReport, PutStopReport, StoppedSession, WithRate;
    match m
    case RegisterUdpPort(port) =>
      TakePut16(port, rest);
      TakePut8(REGISTER_UDP_PORT, Put16(port, rest));
    case StopMessage(report) =>
      TakePutStopReport(report, rest);
      TakePut8(STOP, PutStopReport(report, rest));
    case SetRateMessage(hz) =>
      TakePut32(hz, rest);
      TakePut8(SET_RATE, Put32(hz, rest));
    case PlayMessage => TakePut8(PLAY, rest);
    case PauseMessage => TakePut8(PAUSE, rest);
    case ResetMessage => TakePut8(RESET, rest);
  }

  /** The loop over a stream of legal messages is the fold over the messages; after n rounds
      it has served exactly the first n of them. */
  lemma {:induction false} StreamIsMessages(ms: seq<ControlMessage>, c: Control, fuel: nat)
    ensures Serve(PutMessages(ms, []), c, fuel) == HandleAll(c, ms[..if fuel < |ms| then fuel else |ms|])
  {
    hide PutMessage, Handle, ServeOne;
    if ms == [] {
      EmptyStream(c);
    } else if fuel == 0 {
      assert ms[..0] == [];
    } else {
      ServesOneMessage(ms[0], PutMessages(ms[1..], []), c);
      StreamIsMessages(ms[1..], Handle(c, ms[0]), fuel - 1);
      var n := if fuel < |ms| then fuel else |ms|;
      assert ms[..n][0] == ms[0] && ms[..n][1..] == ms[1..][..n - 1];
    }
  }

  lemma EmptyStream(c: Control)
    ensures ServeOne([], c) == Ended
  {
  }

  // ----- the worker -----

  /** The payload of RegisterUdpPort. */
  method ReadPort(socket: TcpSocket) returns (ok: bool, port: u16)
    modifies socket
    ensures ok ==> Take16(old(socket.incoming)) == Parsed(port, socket.incoming)
    ensures old(socket.Delivers()) && old(socket.isValid) ==> (ok <==> Take16(old(socket.incoming)).Parsed?)
    ensures old(socket.Delivers()) ==> socket.Delivers()
    ensures socket.isValid == old(socket.isValid)
  {
    port := 0;
    ghost var payload := socket.incoming;
    var bytes := new byte[2];
    ok := socket.ReceiveAll(bytes);
    if !ok { return; }
    assert payload[..2] == bytes[..] == bytes[..][..2] && payload[2..] == socket.incoming;
    var reader := new BinaryReader(bytes[..], true);
    ok, port := reader.TryReadUInt16();
  }

  /** The payload of SetRate. */
  method ReadRate(socket: TcpSocket) returns (ok: bool, hz: bv32)
    modifies socket
    ensures ok ==> Take32(old(socket.incoming)) == Parsed(hz, socket.incoming)
    ensures old(socket.Delivers()) && old(socket.isValid) ==> (ok <==> Take32(old(socket.incoming)).Parsed?)
    ensures old(socket.Delivers()) ==> socket.Delivers()
    ensures socket.isValid == old(socket.isValid)
  {
    hz := 0;
    ghost var payload := socket.incoming;
    var bytes := new byte[4];
    ok := socket.ReceiveAll(bytes);
    if !ok { return; }
    assert payload[..4] == bytes[..] == bytes[..][..4] && payload[4..] == socket.incoming;
    var reader := new BinaryReader(bytes[..], true);
    ok, hz := reader.TryReadUInt32();
  }

  /** One session's worker, reading its control socket. */
  method ProcessOneMessage(session: ClientSession, clientIp: string, registered: bool)
    returns (keep: bool, registered': bool)
    modifies session, session.controlSocket
    ensures var socket, c := session.controlSocket, Control(old(session.View()), registered);
            var outcome := ServeOne(old(socket.incoming), c);
            && (keep ==> outcome == Served(Control(session.View(), registered'), socket.incoming))
            && (!keep ==> session.View() == old(session.View()) && registered' == registered)
            && (old(socket.Delivers()) && old(socket.isValid) ==> (keep <==> outcome.Served?))
            && (old(socket.Delivers()) ==> socket.Delivers())
            && socket.isValid == old(socket.isValid)
    ensures old(registered ==> session.udpIpAddress == clientIp) ==> registered' ==> session.udpIpAddress == clientIp
  {
    hide StoppedSession, WithRate, FromBigEndian16, FromBigEndian32, TakeStopReport;
    keep, registered' := false, registered;
    var socket := session.controlSocket;
    ghost var stream := socket.incoming;

    var header := new byte[1];
    var ok := socket.ReceiveAll(header);
    if !ok { return; }
    var kind := header[0];
    ghost var payload := stream[1..];
    assert header[..] == stream[..1];
    assert Take8(stream) == Parsed(kind, payload);

    if kind == REGISTER_UDP_PORT {
      var port;
      ok, port := ReadPort(socket);
      if !ok { return; }
      registered' := port != 0;
      if registered' {
        session.RegisterUdpEndpoint(clientIp, port);
      }
      keep := true;
    } else if kind == SET_RATE {
      var hz;
      ok, hz := ReadRate(socket);
      if !ok { return; }
      if registered {
        session.SetRate(hz);
      }
      keep := true;
    } else if kind == STOP {
      keep := ProcessStop(session, registered);
    } else if !registered {
      keep := true;
    } else if kind == PLAY {
      session.Play();
      keep := true;
    } else if kind == PAUSE {
      session.Pause();
      keep := true;
    } else if kind == RESET {
      session.Reset();
      keep := true;
    }
  }

  lemma StopReportIsPrefix(stream: seq<byte>)
    requires |stream| >= 120
    ensures TakeStopReport(stream[..120]).Parsed?
    ensures TakeStopReport(stream) == Parsed(TakeStopReport(stream[..120]).value, stream[120..])
  {
    hide TakeStopReport, PutStopReport;
    var front, back := stream[..120], stream[120..];
    TakeStopReportShortIff(front);
    PutTakeStopReport(front);
    var report, none := TakeStopReport(front).value, TakeStopReport(front).rest;
    assert |PutStopReport(report, none)| == 120 + |none|;
    assert none == [];
    AppPutStopReport([], report, []);
    AppPutStopReport([], report, back);
    var image := AppStopReport([], report);
    assert image + [] == image && [] + PutStopReport(report, []) == front;
    assert image == front;
    assert stream == front + back == PutStopReport(report, back);
    TakePutStopReport(report, back);
  }

  /** The Stop branch: the report is read even when the command will be ignored. */
  method ProcessStop(session: ClientSession, registered: bool) returns (keep: bool)
    modifies session, session.controlSocket
    ensures var socket, c := session.controlSocket, Control(old(session.View()), registered);
            var parse := TakeStopReport(old(socket.incoming));
            && (keep ==> parse.Parsed? && session.View() == Handle(c, StopMessage(parse.value)).session &&
                         socket.incoming == parse.rest)
            && (!keep ==> session.View() == old(session.View()))
            && (old(socket.Delivers()) && old(socket.isValid) ==> (keep <==> parse.Parsed?))
            && (old(socket.Delivers()) ==> socket.Delivers())
            && socket.isValid == old(socket.isValid)
    ensures session.udpIpAddress == old(session.udpIpAddress)
  {
    hide StoppedSession, TakeStopReport;
    keep := false;
    var socket := session.controlSocket;
    ghost var stream := socket.incoming;
    TakeStopReportShortIff(stream);
    var bytes := new byte[120];
    var ok := socket.ReceiveAll(bytes);
    if !ok { return; }
    StopReportIsPrefix(stream);
    if registered {
      var reader := new BinaryReader(bytes[..], true);
      var parsed, report := TryDeserializeStop(reader);
      if !parsed { return; }
      session.Stop();
    }
    keep := true;
  }

  /** After `rounds` rounds over a stream the worker has `b` left to read and is in state `c`. */
  ghost predicate Reached(stream: seq<byte>, start: Control, rounds: nat, b: seq<byte>, c: Control) {
    forall fuel: nat :: Serve(stream, start, rounds + fuel) == Serve(b, c, fuel)
  }

  lemma ReachedNow(stream: seq<byte>, start: Control, rounds: nat, b: seq<byte>, c: Control)
    requires Reached(stream, start, rounds, b, c)
    ensures Serve(stream, start, rounds) == c
  {
    assert Serve(stream, start, rounds + 0) == Serve(b, c, 0);
  }

  lemma ReachedStart(stream: seq<byte>, start: Control)
    ensures Reached(stream, start, 0, stream, start)
  {
  }

  lemma ReachedStep(stream: seq<byte>, start: Control, rounds: nat, b: seq<byte>, c: Control)
    requires Reached(stream, start, rounds, b, c) && ServeOne(b, c).Served?
    ensures Reached(stream, start, rounds + 1, ServeOne(b, c).rest, ServeOne(b, c).control)
  {
    hide ServeOne;
    forall fuel: nat
      ensures Serve(stream, start, rounds + 1 + fuel) == Serve(ServeOne(b, c).rest, ServeOne(b, c).control, fuel)
    {
      assert Serve(stream, start, rounds + (1 + fuel)) == Serve(b, c, 1 + fuel);
    }
  }

  lemma ReachedEnd(stream: seq<byte>, start: Control, rounds: nat, b: seq<byte>, c: Control, limit: nat)
    requires Reached(stream, start, rounds, b, c) && rounds <= limit
    requires rounds == limit || !ServeOne(b, c).Served?
    ensures Serve(stream, start, limit) == c
  {
    hide ServeOne;
    assert Serve(stream, start, rounds + (limit - rounds)) == Serve(b, c, limit - rounds);
  }

  /** The worker's loop, which finds the server running `limit` times at most. Whatever pieces the
      bytes arrive in, the session ends in the state some number of whole messages leads to, no
      more than that; if the connection never fails early, exactly the state that many rounds over
      the stream lead to. */
  method ControlWorker(session: ClientSession, clientIp: string, limit: nat)
    returns (registered: bool, ghost rounds: nat)
    modifies session, session.controlSocket
    ensures var stream, c := old(session.controlSocket.incoming), Control(old(session.View()), false);
            && rounds <= limit
            && Control(session.View(), registered) == Serve(stream, c, rounds)
            && (old(session.controlSocket.Delivers()) && old(session.controlSocket.isValid) ==>
                  Control(session.View(), registered) == Serve(stream, c, limit))
    ensures registered ==> session.udpIpAddress == clientIp
  {
    hide ServeOne, Serve, Reached;
    var socket := session.controlSocket;
    ghost var stream, start := socket.incoming, Control(session.View(), false);
    ghost var reliable := socket.Delivers() && socket.isValid;
    registered, rounds := false, 0;
    var keep, turns: nat := true, 0;
    ReachedStart(stream, start);
    while keep && turns < limit
      invariant turns == rounds <= limit
      invariant Reached(stream, start, rounds, socket.incoming, Control(session.View(), registered)) || !keep
      invariant Control(session.View(), registered) == Serve(stream, start, rounds) || keep
      invariant registered ==> session.udpIpAddress == clientIp
      invariant reliable ==> socket.Delivers() && socket.isValid
      invariant reliable && !keep ==> Control(session.View(), registered) == Serve(stream, start, limit)
      decreases keep, |socket.incoming|
    {
      ghost var b, c := socket.incoming, Control(session.View(), registered);
      keep, registered := ProcessOneMessage(session, clientIp, registered);
      ServeOneConsumes(b, c);
      if keep {
        ReachedStep(stream, start, rounds, b, c);
        rounds, turns := rounds + 1, turns + 1;
      } else {
        ReachedNow(stream, start, rounds, b, c);
        if reliable {
          ReachedEnd(stream, start, rounds, b, c, limit);
        }
      }
    }
    if keep {
      ReachedNow(stream, start, rounds, socket.incoming, Control(session.View(), registered));
    }
  }

  /** Put together: over a stream of legal messages the session ends exactly where handling those
      messages one by one does, as far as the server still runs, for every way of cutting the
      stream into pieces. */
  method ServeClient(session: ClientSession, clientIp: string, limit: nat, ms: seq<ControlMessage>)
    returns (registered: bool)
    requires session.controlSocket.incoming == PutMessages(ms, [])
    requires session.controlSocket.isValid && session.controlSocket.Delivers()
    modifies session, session.controlSocket
    ensures Control(session.View(), registered) ==
            HandleAll(Control(old(session.View()), false), ms[..if limit < |ms| then limit else |ms|])
    ensures registered ==> session.udpIpAddress == clientIp
  {
    hide Serve, HandleAll, PutMessages;
    ghost var c := Control(session.View(), false);
    ghost var rounds;
    registered, rounds := ControlWorker(session, clientIp, limit);
    StreamIsMessages(ms, c, limit);
  }
}
