/** The client facade (ClientCore/GameClient.cpp): connecting, the reconnecting watchdog and
    the commands. Each call holds the locks it needs, so it is one step here; the outcomes of
    system calls and the clock readings are parameters. */
module GameClients {
  import opened ByteOrder
  import opened BinarySerializer
  import opened Protocol
  import opened Streaming
  import opened Metrics
  import opened Tcp
  import opened Worlds
  import opened Sessions
  import opened ControlChannel
  import opened ControlInputReceiver
  import opened ClientReceiver

  // ----- the connection -----

  datatype ClientConfig = ClientConfig(host: string, tcpPort: u16, udpPort: u16, serverUdpPort: u16)

  datatype ConnectionState = Disconnected | Connected | Reconnecting

  /** The TcpMessageReceiver, with its flag. */
  datatype MessageReceiver = Absent | Present(hasFailedUnexpectedly: bool)

  /** 2 s, in nanoseconds. */
  const RECONNECT_INTERVAL: int := 2_000_000_000

  datatype Link = Link(state: ConnectionState, receiver: MessageReceiver, lastConfig: ClientConfig,
                       watchdog: bool, nextRetry: int)

  const INITIAL_LINK := Link(Disconnected, Absent, ClientConfig("127.0.0.1", 5000, 6000, 6500), false, 0)

  /** What no call ever breaks. */
  predicate Safe(k: Link) {
    && (k.receiver.Present? ==> k.state == Connected)
    && (k.state == Reconnecting ==> k.watchdog)
    && (k.state == Disconnected ==> !k.watchdog)
    && (k.state == Connected ==> k.watchdog)
  }

  function TornDown(k: Link): Link {
    k.(receiver := Absent)
  }

  function Attempted(k: Link, ok: bool): Link {
    if ok then k.(state := Connected, receiver := Present(false)) else k
  }

  function AfterConnect(k: Link, config: ClientConfig, ok: bool): Link {
    var k' := Attempted(if k.state == Disconnected then k else TornDown(k), ok);
    if ok then k'.(lastConfig := config, watchdog := true, nextRetry := if k.watchdog then k.nextRetry else 0) else k'
  }

  function AfterDisconnect(k: Link): Link {
    TornDown(k).(watchdog := false, state := Disconnected)
  }

  /** The watchdog is about to try to connect again. */
  predicate Retries(k: Link, now: int) {
    k.watchdog && k.state == Reconnecting && now >= k.nextRetry
  }

  /** One turn of the watchdog; `later` is the clock after a failed attempt. */
  function AfterPoll(k: Link, now: int, ok: bool, later: int): Link {
    if !k.watchdog then k
    else if k.state == Connected && k.receiver == Present(true) then
      TornDown(k).(state := Reconnecting, nextRetry := now + RECONNECT_INTERVAL)
    else if Retries(k, now) then
      if ok then Attempted(k, true) else k.(nextRetry := later + RECONNECT_INTERVAL)
    else k
  }

  /** How the system calls of one connection attempt turn out, in their order. */
  datatype Attempt = Attempt(udpStarts: bool, tcpEndpoint: bool, udpEndpoint: bool, creates: bool, connects: bool,
                             incoming: seq<byte>, deliveries: seq<nat>, acceptances: seq<nat>)

  /** Nothing goes wrong, in particular with the three bytes of the registration. */
  ghost predicate GoesWell(net: Attempt) {
    && net.udpStarts && net.tcpEndpoint && net.udpEndpoint && net.creates && net.connects
    && |net.acceptances| >= 3 && forall i :: 0 <= i < |net.acceptances| ==> net.acceptances[i] > 0
  }

  // ----- the commands -----

  datatype Command = PlayCommand | PauseCommand | StopCommand | ResetCommand | RateCommand(rate: DataRate)

  /** What a command does to the client itself, depending on whether it could be sent. Only
      Stop acts before it is sent. */
  function Commanded(c: Client, command: Command, sent: bool, now: int): Client {
    match command
    case PlayCommand => if sent then c.(active := true, collector := Apply(c.collector, Play(now))) else c
    case PauseCommand => if sent then c.(active := false, collector := Apply(c.collector, Pause(now))) else c
    case StopCommand =>
      if sent then c.(active := false, collector := Fresh(c.collector.timing.rate)) else c.(active := false)
    case ResetCommand => if sent then c.(collector := Fresh(c.collector.timing.rate)) else c
    case RateCommand(rate) => if sent then c.(collector := Apply(c.collector, SetRate(rate, now))) else c
  }

  function WireRate(rate: DataRate): bv32 {
    if rate == Hz30 then 30 else 60
  }

  function MessageOf(command: Command, report: StopReport): ControlMessage {
    match command
    case PlayCommand => PlayMessage
    case PauseCommand => PauseMessage
    case StopCommand => StopMessage(report)
    case ResetCommand => ResetMessage
    case RateCommand(rate) => SetRateMessage(WireRate(rate))
  }

  /** How numbers become 64-bit fields. */
  datatype Encoding = Encoding(double: real -> bv64, count: nat -> bv64)

  datatype LatencyFields = LatencyFields(samples: bv64, average: bv64, minimum: bv64, maximum: bv64)

  function ReportOfSnapshot(s: Snapshot, latency: LatencyFields, e: Encoding): StopReport {
    StopReport(e.double(s.elapsedSeconds), e.count(s.received), e.count(s.lossCount), e.count(s.outOfOrder),
               e.double(s.lossRate), e.count(s.samples), e.double(s.averageMs), e.double(s.maxMs),
               e.double(s.averageDeviationMs), e.count(s.delayed), e.double(s.delayedRate),
               latency.samples, latency.average, latency.minimum, latency.maximum)
  }

  class GameClient {
    const entityWorld: EntityWorld
    const udpReceiver: UdpReceiver
    const tcpSocket: TcpSocket
    var connectionState: ConnectionState
    var tcpMessageReceiver: MessageReceiver
    var lastConfig: ClientConfig
    var isWatchdogRunning: bool
    /** The watchdog's local variable. */
    var nextRetryTime: int

    function LinkView(): Link
      reads this
    {
      Link(connectionState, tcpMessageReceiver, lastConfig, isWatchdogRunning, nextRetryTime)
    }

    function ClientView(): Client
      reads udpReceiver, udpReceiver.metricsCollector, udpReceiver.entityWorld
    {
      udpReceiver.View()
    }

    ghost predicate Valid()
      reads this, udpReceiver.metricsCollector
    {
      udpReceiver.entityWorld == entityWorld && udpReceiver.Valid() && Safe(LinkView())
    }

    constructor ()
      ensures Valid() && LinkView() == INITIAL_LINK && ClientView() == Client(false, Fresh(Hz30), EMPTY_WORLD)
    {
      var world := new EntityWorld();
      var receiver := new UdpReceiver(world);
      var socket := new TcpSocket([], [], []);
      entityWorld, udpReceiver, tcpSocket := world, receiver, socket;
      connectionState, tcpMessageReceiver, isWatchdogRunning, nextRetryTime := Disconnected, Absent, false, 0;
      lastConfig := ClientConfig("127.0.0.1", 5000, 6000, 6500);
      new;
      tcpSocket.Close();
    }

    /** Connects, or gives up at the first failing call. The previous receiver must be gone:
        replacing it would close the new socket. A new connection starts inactive, with empty
        statistics and an empty world, and its stream with the registration. */
    method ConnectLocked(config: ClientConfig, net: Attempt) returns (ok: bool)
      requires Valid() && tcpMessageReceiver == Absent
      modifies `connectionState, `tcpMessageReceiver, udpReceiver`isRunning, udpReceiver`isActive,
               udpReceiver.metricsCollector, entityWorld, tcpSocket
      ensures udpReceiver.Valid() && LinkView() == Attempted(old(LinkView()), ok)
      ensures var rate := old(udpReceiver.metricsCollector.expectedDataRate);
              ClientView() == Client(false, Fresh(rate), if ok then EMPTY_WORLD else old(entityWorld.View()))
      ensures ok ==> tcpSocket.isValid && udpReceiver.isRunning &&
                     tcpSocket.outgoing == PutMessage(RegisterUdpPort(config.udpPort), [])
      ensures GoesWell(net) ==> ok
      ensures ok ==> net.udpStarts && net.tcpEndpoint && net.udpEndpoint && net.creates && net.connects
    {
      hide PutMessage, Fresh;
      ok := udpReceiver.Start(net.udpStarts);
      if !ok || !net.tcpEndpoint || !net.udpEndpoint {
        return false;
      }
      ok := tcpSocket.Create(net.creates, net.incoming, net.deliveries, net.acceptances);
      if !ok || !net.connects {
        return false;
      }
      ok := SendRegisterUdpPort(config.udpPort);
      if !ok { return; }
      assert [] + PutMessage(RegisterUdpPort(config.udpPort), []) == PutMessage(RegisterUdpPort(config.udpPort), []);
      entityWorld.Clear();
      tcpMessageReceiver := Present(false);
      connectionState := Connected;
    }

    method TeardownConnectionLocked()
      modifies `tcpMessageReceiver, udpReceiver`isRunning, tcpSocket`isValid
      ensures LinkView() == TornDown(old(LinkView())) && !tcpSocket.isValid && !udpReceiver.isRunning
    {
      if tcpMessageReceiver.Present? {
        tcpMessageReceiver := Absent;
      }
      udpReceiver.Stop();
      tcpSocket.Close();
    }

    method Connect(config: ClientConfig, net: Attempt) returns (ok: bool)
      requires Valid()
      modifies this, udpReceiver`isRunning, udpReceiver`isActive, udpReceiver.metricsCollector, entityWorld, tcpSocket
      ensures Valid() && LinkView() == AfterConnect(old(LinkView()), config, ok)
      ensures var rate := old(udpReceiver.metricsCollector.expectedDataRate);
              ClientView() == Client(false, Fresh(rate), if ok then EMPTY_WORLD else old(entityWorld.View()))
      ensures ok ==> tcpSocket.isValid && tcpSocket.outgoing == PutMessage(RegisterUdpPort(config.udpPort), [])
      ensures GoesWell(net) ==> ok
      ensures ok ==> net.udpStarts && net.tcpEndpoint && net.udpEndpoint && net.creates && net.connects
    {
      hide PutMessage, Fresh;
      if connectionState != Disconnected {
        TeardownConnectionLocked();
      }
      ok := ConnectLocked(config, net);
      if ok {
        lastConfig := config;
        if !isWatchdogRunning {
          isWatchdogRunning := true;
          nextRetryTime := 0;
        }
      }
    }

    method Disconnect()
      requires Valid()
      modifies this, udpReceiver`isRunning, tcpSocket`isValid
      ensures Valid() && LinkView() == AfterDisconnect(old(LinkView())) && !tcpSocket.isValid
    {
      isWatchdogRunning := false;
      TeardownConnectionLocked();
      connectionState := Disconnected;
    }

    /** One turn of the watchdog, between two sleeps; attempts use the last successful
        configuration. */
    method Poll(now: int, net: Attempt, later: int) returns (ok: bool)
      requires Valid() && isWatchdogRunning
      modifies this, udpReceiver`isRunning, udpReceiver`isActive, udpReceiver.metricsCollector, entityWorld, tcpSocket
      ensures Valid() && LinkView() == AfterPoll(old(LinkView()), now, ok, later)
      ensures var rate := old(udpReceiver.metricsCollector.expectedDataRate);
              ClientView() ==
              if Retries(old(LinkView()), now)
              then Client(false, Fresh(rate), if ok then EMPTY_WORLD else old(entityWorld.View()))
              else old(ClientView())
      ensures ok ==> Retries(old(LinkView()), now) && tcpSocket.isValid &&
                     tcpSocket.outgoing == PutMessage(RegisterUdpPort(old(lastConfig).udpPort), [])
      ensures Retries(old(LinkView()), now) && GoesWell(net) ==> ok
      ensures ok ==> net.udpStarts && net.tcpEndpoint && net.udpEndpoint && net.creates && net.connects
    {
      hide PutMessage, Fresh;
      ok := false;
      if connectionState == Connected {
        if tcpMessageReceiver == Present(true) {
          TeardownConnectionLocked();
          connectionState := Reconnecting;
          nextRetryTime := now + RECONNECT_INTERVAL;
        }
      } else if connectionState == Reconnecting {
        if now >= nextRetryTime {
          ok := ConnectLocked(lastConfig, net);
          if !ok {
            nextRetryTime := later + RECONNECT_INTERVAL;
          }
        }
      }
    }

    // ----- commands -----

    /** Connected, on a link that takes the next n bytes. */
    ghost predicate CanSend(n: nat)
      reads this, tcpSocket
    {
      connectionState == Connected && tcpSocket.isValid && tcpSocket.Accepts(n)
    }

    method SendRegisterUdpPort(port: u16) returns (ok: bool)
      modifies tcpSocket`outgoing, tcpSocket`acceptances
      ensures ok ==> tcpSocket.isValid
      ensures ok ==> tcpSocket.outgoing == old(tcpSocket.outgoing) + PutMessage(RegisterUdpPort(port), [])
      ensures old(tcpSocket.isValid && tcpSocket.Accepts(3)) ==> ok
    {
      assert |PutMessage(RegisterUdpPort(port), [])| == 3;
      hide App8, Put8, App16, Put16;
      var writer := new BinaryWriter(true);
      writer.WriteUInt8(REGISTER_UDP_PORT);
      writer.WriteUInt16(port);
      AppPut16(App8([], REGISTER_UDP_PORT), port, []);
      AppPut8([], REGISTER_UDP_PORT, Put16(port, []));
      ok := SendMessage(writer.buffer, RegisterUdpPort(port));
    }

    method SendMessage(bytes: seq<byte>, ghost m: ControlMessage) returns (ok: bool)
      requires bytes + [] == [] + PutMessage(m, [])
      modifies tcpSocket`outgoing, tcpSocket`acceptances
      ensures ok ==> tcpSocket.isValid && tcpSocket.outgoing == old(tcpSocket.outgoing) + PutMessage(m, [])
      ensures old(tcpSocket.isValid && tcpSocket.Accepts(|bytes|)) ==> ok
    {
      hide PutMessage;
      assert bytes == bytes + [];
      assert PutMessage(m, []) == [] + PutMessage(m, []);
      ok := tcpSocket.SendAll(bytes);
    }

    method SendHeaderOnly(kind: byte, ghost m: ControlMessage) returns (ok: bool)
      requires PutMessage(m, []) == Put8(kind, [])
      modifies tcpSocket`outgoing, tcpSocket`acceptances
      ensures ok ==> tcpSocket.isValid && tcpSocket.outgoing == old(tcpSocket.outgoing) + PutMessage(m, [])
      ensures old(tcpSocket.isValid && tcpSocket.Accepts(1)) ==> ok
    {
      hide Put8, PutMessage;
      var writer := new BinaryWriter(true);
      writer.WriteUInt8(kind);
      AppPut8([], kind, []);
      ok := SendMessage(writer.buffer, m);
    }

    method SendSetRate(hz: bv32) returns (ok: bool)
      modifies tcpSocket`outgoing, tcpSocket`acceptances
      ensures ok ==> tcpSocket.isValid
      ensures ok ==> tcpSocket.outgoing == old(tcpSocket.outgoing) + PutMessage(SetRateMessage(hz), [])
      ensures old(tcpSocket.isValid && tcpSocket.Accepts(5)) ==> ok
    {
      assert |PutMessage(SetRateMessage(hz), [])| == 5;
      hide App8, Put8, App32, Put32;
      var writer := new BinaryWriter(true);
      writer.WriteUInt8(SET_RATE);
      writer.WriteUInt32(hz);
      AppPut32(App8([], SET_RATE), hz, []);
      AppPut8([], SET_RATE, Put32(hz, []));
      ok := SendMessage(writer.buffer, SetRateMessage(hz));
    }

    method SendStop(report: StopReport) returns (ok: bool)
      modifies tcpSocket`outgoing, tcpSocket`acceptances
      ensures ok ==> tcpSocket.isValid
      ensures ok ==> tcpSocket.outgoing == old(tcpSocket.outgoing) + PutMessage(StopMessage(report), [])
      ensures old(tcpSocket.isValid && tcpSocket.Accepts(121)) ==> ok
    {
      assert |PutMessage(StopMessage(report), [])| == 121;
      hide App8, Put8, AppStopReport, PutStopReport;
      var writer := new BinaryWriter(true);
      writer.WriteUInt8(STOP);
      SerializeStop(writer, report);
      AppPutStopReport(App8([], STOP), report, []);
      AppPut8([], STOP, PutStopReport(report, []));
      ok := SendMessage(writer.buffer, StopMessage(report));
    }

    method Play(now: int) returns (ok: bool)
      requires Valid()
      modifies udpReceiver`isActive, udpReceiver.metricsCollector, tcpSocket`outgoing, tcpSocket`acceptances
      ensures Valid() && ClientView() == Commanded(old(ClientView()), PlayCommand, ok, now)
      ensures ok ==> connectionState == Connected
      ensures ok ==> tcpSocket.outgoing == old(tcpSocket.outgoing) + PutMessage(PlayMessage, [])
      ensures old(CanSend(1)) ==> ok
    {
      hide Apply;
      if connectionState != Connected {
        return false;
      }
      ok := SendHeaderOnly(PLAY, PlayMessage);
      if ok {
        udpReceiver.OnPlay(now);
      }
    }

    method Pause(now: int) returns (ok: bool)
      requires Valid()
      modifies udpReceiver`isActive, udpReceiver.metricsCollector, tcpSocket`outgoing, tcpSocket`acceptances
      ensures Valid() && ClientView() == Commanded(old(ClientView()), PauseCommand, ok, now)
      ensures ok ==> connectionState == Connected
      ensures ok ==> tcpSocket.outgoing == old(tcpSocket.outgoing) + PutMessage(PauseMessage, [])
      ensures old(CanSend(1)) ==> ok
    {
      hide Apply;
      if connectionState != Connected {
        return false;
      }
      ok := SendHeaderOnly(PAUSE, PauseMessage);
      if ok {
        udpReceiver.OnPause(now);
      }
    }

    /** Stop drops out of playing first and reports the statistics before they are cleared. */
    method Stop(now: int, latency: LatencyFields, e: Encoding) returns (ok: bool)
      requires Valid()
      modifies udpReceiver`isActive, udpReceiver.metricsCollector, tcpSocket`outgoing, tcpSocket`acceptances
      ensures Valid()
      ensures ClientView() ==
              if connectionState == Connected then Commanded(old(ClientView()), StopCommand, ok, now)
              else old(ClientView())
      ensures var report := ReportOfSnapshot(SnapshotOf(old(ClientView()).collector, now), latency, e);
              ok ==> tcpSocket.outgoing == old(tcpSocket.outgoing) + PutMessage(StopMessage(report), [])
      ensures ok ==> connectionState == Connected
      ensures old(CanSend(121)) ==> ok
    {
      hide Apply, ReportOfSnapshot, SnapshotOf, Fresh;
      if connectionState != Connected {
        return false;
      }
      udpReceiver.OnStop();
      var metrics := udpReceiver.metricsCollector.GetSnapshot(now);
      ok := SendStop(ReportOfSnapshot(metrics, latency, e));
      if ok {
        udpReceiver.ResetMetrics();
      }
    }

    method Reset(now: int) returns (ok: bool)
      requires Valid()
      modifies udpReceiver.metricsCollector, tcpSocket`outgoing, tcpSocket`acceptances
      ensures Valid() && ClientView() == Commanded(old(ClientView()), ResetCommand, ok, now)
      ensures ok ==> connectionState == Connected
      ensures ok ==> tcpSocket.outgoing == old(tcpSocket.outgoing) + PutMessage(ResetMessage, [])
      ensures old(CanSend(1)) ==> ok
    {
      hide Fresh;
      if connectionState != Connected {
        return false;
      }
      ok := SendHeaderOnly(RESET, ResetMessage);
      if ok {
        udpReceiver.ResetMetrics();
      }
    }

    method SetRate(rate: DataRate, ghost now: int) returns (ok: bool)
      requires Valid()
      modifies udpReceiver.metricsCollector, tcpSocket`outgoing, tcpSocket`acceptances
      ensures Valid() && ClientView() == Commanded(old(ClientView()), RateCommand(rate), ok, now)
      ensures ok ==> connectionState == Connected
      ensures ok ==> tcpSocket.outgoing == old(tcpSocket.outgoing) + PutMessage(SetRateMessage(WireRate(rate)), [])
      ensures old(CanSend(5)) ==> ok
    {
      hide Apply;
      if connectionState != Connected {
        return false;
      }
      ok := SendSetRate(WireRate(rate));
      if ok {
        udpReceiver.SetExpectedDataRate(rate, now);
      }
    }

    /** A steering datagram for the client's own entity, clamped to the unit range. It succeeds
        exactly when there is one to send and the kernel takes all of it. */
    method SendControlInput(throttle: real, yaw: real, bits: real -> bv32, taken: int)
      returns (ok: bool, datagram: seq<byte>)
      modifies udpReceiver`nextControlInputSequenceId
      ensures var before := old(udpReceiver.nextControlInputSequenceId);
              if connectionState == Connected && entityWorld.View().own.Mine?
              then
                && (ok <==> taken == |datagram|)
                && udpReceiver.nextControlInputSequenceId == (before + 1) % TWO_TO_32
                && datagram == InputDatagram(EntityControlInput(
                     Word32(entityWorld.View().own.id), Word32((before + 1) % TWO_TO_32),
                     bits(Clamp(throttle, -1.0, 1.0)), bits(Clamp(yaw, -1.0, 1.0))))
              else !ok && datagram == [] && udpReceiver.nextControlInputSequenceId == before
    {
      hide InputDatagram, Word32;
      ok, datagram := false, [];
      if connectionState != Connected {
        return;
      }
      var myEntityId;
      ok, myEntityId := entityWorld.TryGetMyEntityId();
      if !ok { return; }
      var t, y := Clamp(throttle, -1.0, 1.0), Clamp(yaw, -1.0, 1.0);
      ok, datagram := udpReceiver.SendControlInput(Word32(myEntityId), bits(t), bits(y), taken);
    }
  }
}
