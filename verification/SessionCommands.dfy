/** What the control messages of a client amount to, as commands on its session. */
module SessionCommands {
  import opened ByteOrder
  import opened Protocol
  import opened Streaming
  import opened Sessions
  import opened SessionRuns
  import opened ControlChannel

  // ----- single commands, field by field -----

  /** Play and Pause move the state and nothing else; Pause only takes hold of a playing session. */
  lemma PlayAndPause(s: Session, trig: Trig)
    ensures Perform(s, Play, trig) == Session(Playing, s.rate, s.nextSequenceId, s.udpPort, s.body)
    ensures Perform(s, Pause, trig) ==
            Session(match s.state
                    case Playing => Paused
                    case Paused => Paused
                    case Stopped => Stopped,
                    s.rate, s.nextSequenceId, s.udpPort, s.body)
  {
  }

  /** Stop ends playing, restarts the numbering and returns the entity to rest at the origin under
      no control; it keeps the rate, the port and the last applied input number. */
  lemma StopStartsOver(s: Session, trig: Trig)
    ensures Perform(s, Stop, trig) ==
            Session(Stopped, s.rate, 0, s.udpPort, Body(0.0, 0.0, 0.0, 0.0, 0.0, 0.0, 0.0, 0.0, s.body.lastInput))
  {
  }

  /** Reset restarts the numbering only. SetRate knows 30 and 60. */
  lemma ResetAndRate(s: Session, hz: bv32, trig: Trig)
    ensures Perform(s, Reset, trig) == Session(s.state, s.rate, 0, s.udpPort, s.body)
    ensures Perform(s, SetRate(hz), trig) ==
            Session(s.state, if hz == 30 then Hz30 else if hz == 60 then Hz60 else s.rate,
                    s.nextSequenceId, s.udpPort, s.body)
  {
  }

  /** A newer input takes hold, each value as it is between -1 and 1 and cut off there otherwise;
      one that is not newer does nothing. */
  lemma InputTakesHold(s: Session, id: nat, throttle: real, yaw: real, trig: Trig)
    ensures var s' := Perform(s, Input(id, throttle, yaw), trig);
            if id <= s.body.lastInput then s' == s
            else
              && s' == s.(body := s.body.(lastInput := id, throttle := s'.body.throttle, yaw := s'.body.yaw))
              && (-1.0 <= throttle <= 1.0 ==> s'.body.throttle == throttle)
              && (throttle > 1.0 ==> s'.body.throttle == 1.0) && (throttle < -1.0 ==> s'.body.throttle == -1.0)
              && (-1.0 <= yaw <= 1.0 ==> s'.body.yaw == yaw)
              && (yaw > 1.0 ==> s'.body.yaw == 1.0) && (yaw < -1.0 ==> s'.body.yaw == -1.0)
  {
  }

  // ----- a stream of messages -----

  function CommandOf(m: ControlMessage): Op
    requires !m.RegisterUdpPort?
  {
    match m
    case PlayMessage => Play
    case PauseMessage => Pause
    case StopMessage(_) => Stop
    case ResetMessage => Reset
    case SetRateMessage(hz) => SetRate(hz)
  }

  /** The commands among some messages that take effect: those after a registration that has not
      been revoked. */
  function Commands(registered: bool, ms: seq<ControlMessage>): (ops: seq<Op>)
    decreases ms
  {
    if ms == [] then []
    else if ms[0].RegisterUdpPort? then Commands(ms[0].port != 0, ms[1..])
    else if registered then [CommandOf(ms[0])] + Commands(registered, ms[1..])
    else Commands(registered, ms[1..])
  }

  /** The last registration decides. */
  predicate EndsRegistered(registered: bool, ms: seq<ControlMessage>) {
    if ms == [] then registered
    else
      var m := ms[|ms| - 1];
      if m.RegisterUdpPort? then m.port != 0 else EndsRegistered(registered, ms[..|ms| - 1])
  }

  /** The last port registered, leaving out 0. */
  function LastPort(port: u16, ms: seq<ControlMessage>): u16 {
    if ms == [] then port
    else
      var m := ms[|ms| - 1];
      if m.RegisterUdpPort? && m.port != 0 then m.port else LastPort(port, ms[..|ms| - 1])
  }

  lemma {:induction false} PortIsPassive(s: Session, port: u16, ops: seq<Op>, trig: Trig)
    ensures Run(s.(udpPort := port), ops, trig) == Run(s, ops, trig).(udpPort := port)
  {
    hide Step, ApplyInput;
    if ops != [] {
      PortIsPassive(s, port, ops[..|ops| - 1], trig);
    }
  }

  lemma {:induction false} RegistrationFromFront(registered: bool, m: ControlMessage, ms: seq<ControlMessage>)
    ensures EndsRegistered(registered, [m] + ms) ==
            EndsRegistered(if m.RegisterUdpPort? then m.port != 0 else registered, ms)
  {
    if ms == [] {
      assert [m] + ms == [m] && [m][..0] == [];
    } else {
      assert ([m] + ms)[..|ms|] == [m] + ms[..|ms| - 1];
      RegistrationFromFront(registered, m, ms[..|ms| - 1]);
    }
  }

  lemma {:induction false} PortFromFront(port: u16, m: ControlMessage, ms: seq<ControlMessage>)
    ensures LastPort(port, [m] + ms) == LastPort(if m.RegisterUdpPort? && m.port != 0 then m.port else port, ms)
  {
    if ms == [] {
      assert [m] + ms == [m] && [m][..0] == [];
    } else {
      assert ([m] + ms)[..|ms|] == [m] + ms[..|ms| - 1];
      PortFromFront(port, m, ms[..|ms| - 1]);
    }
  }

  lemma RunOne(s: Session, op: Op, trig: Trig)
    ensures Run(s, [op], trig) == Perform(s, op, trig)
    ensures Run(s, [], trig) == s
  {
    assert [op][..0] == [];
    assert Run(s, [op][..0], trig) == s;
  }

  lemma HandleIsCommand(c: Control, m: ControlMessage, trig: Trig)
    requires !m.RegisterUdpPort?
    ensures Handle(c, m) ==
            Control(if c.registered then Perform(c.session, CommandOf(m), trig) else c.session, c.registered)
  {
    hide StoppedSession, WithRate, Step, ApplyInput;
  }

  /** A worker's messages are a run of the commands in effect; registrations move the flag and the
      port alone. So what is proved of runs of a session holds of the control stream. */
  lemma {:induction false} MessagesAreRun(c: Control, ms: seq<ControlMessage>, trig: Trig)
    ensures HandleAll(c, ms) ==
            Control(Run(c.session, Commands(c.registered, ms), trig).(udpPort := LastPort(c.session.udpPort, ms)),
                    EndsRegistered(c.registered, ms))
    decreases |ms|
  {
    hide Handle, Perform, Run, EndsRegistered, LastPort;
    if ms == [] {
      NoMessages(c, trig);
    } else {
      var m, rest := ms[0], ms[1..];
      assert ms == [m] + rest;
      RegistrationFromFront(c.registered, m, rest);
      PortFromFront(c.session.udpPort, m, rest);
      MessagesAreRun(Handle(c, m), rest, trig);
      if m.RegisterUdpPort? {
        Registering(c, m.port);
        PortIsPassive(c.session, m.port, Commands(m.port != 0, rest), trig);
      } else {
        HandleIsCommand(c, m, trig);
        if c.registered {
          var op := CommandOf(m);
          RunOne(c.session, op, trig);
          RunAppend(c.session, [op], Commands(true, rest), trig);
          PerformKeepsPort(c.session, op, trig);
        }
      }
    }
  }

  lemma NoMessages(c: Control, trig: Trig)
    ensures Commands(c.registered, []) == [] && Run(c.session, [], trig) == c.session
    ensures LastPort(c.session.udpPort, []) == c.session.udpPort && EndsRegistered(c.registered, []) == c.registered
  {
  }

  lemma Registering(c: Control, port: u16)
    ensures Handle(c, RegisterUdpPort(port)) ==
            Control(c.session.(udpPort := if port == 0 then c.session.udpPort else port), port != 0)
  {
  }

  lemma PerformKeepsPort(s: Session, op: Op, trig: Trig)
    ensures Perform(s, op, trig).udpPort == s.udpPort
  {
    hide Step, ApplyInput;
  }

  /** A stream of bytes that ends in a Stop message leaves a registered session stopped, with
      number 0, at rest at the origin under no control, whatever went before. */
  lemma StreamEndingInStop(ms: seq<ControlMessage>, report: StopReport, c: Control, fuel: nat, trig: Trig)
    requires EndsRegistered(c.registered, ms) && fuel > |ms|
    ensures var s := Serve(PutMessages(ms + [StopMessage(report)], []), c, fuel).session;
            && s.state == Stopped && s.nextSequenceId == 0
            && s.body == Body(0.0, 0.0, 0.0, 0.0, 0.0, 0.0, 0.0, 0.0, HandleAll(c, ms).session.body.lastInput)
  {
    LastMessage(ms, StopMessage(report), c, fuel, trig);
    hide Serve, HandleAll, PutMessages, Step;
    HandleIsCommand(HandleAll(c, ms), StopMessage(report), trig);
    StopStartsOver(HandleAll(c, ms).session, trig);
  }

  /** One that ends in Pause leaves it paused if it was playing, and as it was otherwise. */
  lemma StreamEndingInPause(ms: seq<ControlMessage>, c: Control, fuel: nat, trig: Trig)
    requires EndsRegistered(c.registered, ms) && fuel > |ms|
    ensures var before, s := HandleAll(c, ms).session, Serve(PutMessages(ms + [PauseMessage], []), c, fuel).session;
            s == before.(state := if before.state == Playing then Paused else before.state)
  {
    LastMessage(ms, PauseMessage, c, fuel, trig);
    hide Serve, HandleAll, PutMessages, Step;
    HandleIsCommand(HandleAll(c, ms), PauseMessage, trig);
    PlayAndPause(HandleAll(c, ms).session, trig);
  }

  /** One that ends in Reset leaves it with number 0 and all else kept. */
  lemma StreamEndingInReset(ms: seq<ControlMessage>, c: Control, fuel: nat, trig: Trig)
    requires EndsRegistered(c.registered, ms) && fuel > |ms|
    ensures var before, s := HandleAll(c, ms).session, Serve(PutMessages(ms + [ResetMessage], []), c, fuel).session;
            s == before.(nextSequenceId := 0)
  {
    LastMessage(ms, ResetMessage, c, fuel, trig);
    hide Serve, HandleAll, PutMessages, Step;
    HandleIsCommand(HandleAll(c, ms), ResetMessage, trig);
    ResetAndRate(HandleAll(c, ms).session, 0, trig);
  }

  lemma LastMessage(ms: seq<ControlMessage>, m: ControlMessage, c: Control, fuel: nat, trig: Trig)
    requires EndsRegistered(c.registered, ms) && fuel > |ms|
    ensures Serve(PutMessages(ms + [m], []), c, fuel) == Handle(HandleAll(c, ms), m)
    ensures HandleAll(c, ms).registered
  {
    hide Handle, Serve, PutMessages;
    StreamIsMessages(ms + [m], c, fuel);
    assert (ms + [m])[..|ms| + 1] == ms + [m];
    HandleAllSnoc(c, ms, m);
    MessagesAreRun(c, ms, trig);
  }
}
