/** One connected client on the server (Server/ClientSession.cpp): its streaming state, its
    packet numbering and the simulated helicopter. Floats are reals; cosine and sine are any
    two functions on the unit circle. */
module Sessions {
  import opened ByteOrder
  import opened Streaming
  import opened Tcp

  datatype Trig = Trig(cos: real -> real, sin: real -> real)

  ghost predicate OnUnitCircle(trig: Trig) {
    forall x: real {:trigger trig.cos(x)} {:trigger trig.sin(x)} ::
      trig.cos(x) * trig.cos(x) + trig.sin(x) * trig.sin(x) == 1.0
  }

  const YAW_RATE_MAX: real := 2.0
  const ACCELERATION: real := 20.0
  const MAX_SPEED: real := 50.0
  const DRAG: real := 1.0

  function Clamp(value: real, low: real, high: real): real {
    if value < low then low else if value > high then high else value
  }

  /** The simulated entity, with the control input it is under. */
  datatype Body = Body(positionX: real, positionY: real, heading: real, speed: real,
                       velocityX: real, velocityY: real, throttle: real, yaw: real, lastInput: nat)

  const AT_ORIGIN := Body(0.0, 0.0, 0.0, 0.0, 0.0, 0.0, 0.0, 0.0, 0)

  function NewHeading(b: Body, dt: real): real {
    b.heading + b.yaw * YAW_RATE_MAX * dt
  }

  /** Thrust, then drag, then the speed limit. */
  function NewSpeed(b: Body, dt: real): real {
    Clamp((b.speed + b.throttle * ACCELERATION * dt) * Clamp(1.0 - DRAG * dt, 0.0, 1.0), -MAX_SPEED, MAX_SPEED)
  }

  function Move(b: Body, heading: real, speed: real, dt: real, trig: Trig): Body {
    var velocityX := trig.cos(heading) * speed;
    var velocityY := trig.sin(heading) * speed;
    b.(heading := heading, speed := speed, velocityX := velocityX, velocityY := velocityY,
       positionX := b.positionX + velocityX * dt, positionY := b.positionY + velocityY * dt)
  }

  function Step(b: Body, dt: real, trig: Trig): Body {
    Move(b, NewHeading(b, dt), NewSpeed(b, dt), dt, trig)
  }

  function ApplyInput(b: Body, id: nat, throttle: real, yaw: real): Body {
    if id <= b.lastInput then b
    else b.(lastInput := id, throttle := Clamp(throttle, -1.0, 1.0), yaw := Clamp(yaw, -1.0, 1.0))
  }

  datatype Session = Session(state: SessionState, rate: DataRate, nextSequenceId: nat, udpPort: u16, body: Body)

  const NEW_SESSION := Session(Stopped, Hz30, 0, 0, AT_ORIGIN)

  function PlayedSession(s: Session): Session {
    s.(state := Playing)
  }

  function PausedSession(s: Session): Session {
    if s.state == Playing then s.(state := SessionState.Paused) else s
  }

  /** Stop forgets the numbering and the entity, but not the last applied input. */
  function StoppedSession(s: Session): Session {
    s.(state := Stopped, nextSequenceId := 0, body := AT_ORIGIN.(lastInput := s.body.lastInput))
  }

  function ResetSession(s: Session): Session {
    s.(nextSequenceId := 0)
  }

  function WithRate(s: Session, hz: bv32): Session {
    if hz == 30 then s.(rate := Hz30) else if hz == 60 then s.(rate := Hz60) else s
  }

  class ClientSession {
    const sessionId: nat
    const controlSocket: TcpSocket

    var state: SessionState
    var dataRate: DataRate
    var nextSequenceId: nat
    var isControlConnectionClosed: bool
    var udpIpAddress: string
    var udpPort: u16

    var positionX: real
    var positionY: real
    var heading: real
    var speed: real
    var velocityX: real
    var velocityY: real
    var throttle: real
    var yaw: real
    var lastAppliedControlInputSequenceId: nat

    function BodyView(): Body
      reads this
    {
      Body(positionX, positionY, heading, speed, velocityX, velocityY, throttle, yaw, lastAppliedControlInputSequenceId)
    }

    function View(): Session
      reads this
    {
      Session(state, dataRate, nextSequenceId, udpPort, BodyView())
    }

    constructor (sessionId: nat, controlSocket: TcpSocket)
      ensures View() == NEW_SESSION && udpIpAddress == "" && !isControlConnectionClosed
      ensures this.sessionId == sessionId && this.controlSocket == controlSocket
    {
      this.sessionId, this.controlSocket := sessionId, controlSocket;
      state, dataRate, nextSequenceId, isControlConnectionClosed := Stopped, Hz30, 0, false;
      udpIpAddress, udpPort := "", 0;
      positionX, positionY, heading, speed, velocityX, velocityY := 0.0, 0.0, 0.0, 0.0, 0.0, 0.0;
      throttle, yaw, lastAppliedControlInputSequenceId := 0.0, 0.0, 0;
    }

    method Play()
      modifies `state
      ensures View() == PlayedSession(old(View()))
    {
      if state == Stopped || state == SessionState.Paused {
        state := Playing;
      }
    }

    method Pause()
      modifies `state
      ensures View() == PausedSession(old(View()))
    {
      if state == Playing {
        state := SessionState.Paused;
      }
    }

    method Stop()
      modifies `state, `nextSequenceId, `positionX, `positionY, `heading, `speed, `velocityX, `velocityY, `throttle, `yaw
      ensures View() == StoppedSession(old(View()))
    {
      state := Stopped;
      nextSequenceId := 0;
      ClearEntity();
    }

    method ClearEntity()
      modifies `positionX, `positionY, `heading, `speed, `velocityX, `velocityY, `throttle, `yaw
      ensures positionX == positionY == heading == speed == 0.0
      ensures velocityX == velocityY == throttle == yaw == 0.0
    {
      positionX, positionY, heading, speed := 0.0, 0.0, 0.0, 0.0;
      velocityX, velocityY := 0.0, 0.0;
      throttle, yaw := 0.0, 0.0;
    }

    method Reset()
      modifies `nextSequenceId
      ensures View() == ResetSession(old(View()))
    {
      nextSequenceId := 0;
    }

    method SetRate(hz: bv32)
      modifies `dataRate
      ensures View() == WithRate(old(View()), hz)
    {
      if hz == 30 {
        dataRate := Hz30;
      } else if hz == 60 {
        dataRate := Hz60;
      }
    }

    method RegisterUdpEndpoint(ip: string, port: u16)
      modifies `udpIpAddress, `udpPort
      ensures View() == old(View()).(udpPort := port) && udpIpAddress == ip
    {
      udpIpAddress, udpPort := ip, port;
    }

    method GetNextSequenceId() returns (id: nat)
      modifies `nextSequenceId
      ensures id == old(nextSequenceId) + 1
      ensures View() == old(View()).(nextSequenceId := id)
    {
      nextSequenceId := nextSequenceId + 1;
      id := nextSequenceId;
    }

    /** The registered endpoint, if there is one. */
    predicate HasUdpEndpoint()
      reads this
    {
      udpIpAddress != "" && udpPort != 0
    }

    method ApplyControlInput(sequenceId: nat, newThrottle: real, newYaw: real)
      modifies `throttle, `yaw, `lastAppliedControlInputSequenceId
      ensures BodyView() == ApplyInput(old(BodyView()), sequenceId, newThrottle, newYaw)
    {
      if sequenceId <= lastAppliedControlInputSequenceId {
        return;
      }
      lastAppliedControlInputSequenceId := sequenceId;
      throttle := Clamp(newThrottle, -1.0, 1.0);
      yaw := Clamp(newYaw, -1.0, 1.0);
    }

    method StepPhysics(dt: real, trig: Trig)
      modifies `positionX, `positionY, `heading, `speed, `velocityX, `velocityY
      ensures BodyView() == Step(old(BodyView()), dt, trig)
    {
      hide NewHeading, NewSpeed;
      Accelerate(dt);
      Travel(dt, trig);
    }

    /** The heading and speed part of StepPhysics. */
    method Accelerate(dt: real)
      modifies `heading, `speed
      ensures heading == NewHeading(old(BodyView()), dt) && speed == NewSpeed(old(BodyView()), dt)
    {
      heading := heading + yaw * YAW_RATE_MAX * dt;
      speed := speed + throttle * ACCELERATION * dt;
      speed := speed * Clamp(1.0 - DRAG * dt, 0.0, 1.0);
      speed := Clamp(speed, -MAX_SPEED, MAX_SPEED);
    }

    /** Its velocity and position part. */
    method Travel(dt: real, trig: Trig)
      modifies `positionX, `positionY, `velocityX, `velocityY
      ensures velocityX == trig.cos(heading) * speed && velocityY == trig.sin(heading) * speed
      ensures positionX == old(positionX) + velocityX * dt && positionY == old(positionY) + velocityY * dt
    {
      velocityX := trig.cos(heading) * speed;
      velocityY := trig.sin(heading) * speed;
      positionX := positionX + velocityX * dt;
      positionY := positionY + velocityY * dt;
    }

    /** Ends the session; the socket is closed on the first call only. */
    method StopSession()
      modifies `state, `isControlConnectionClosed, controlSocket`isValid
      ensures View() == old(View()).(state := Stopped) && isControlConnectionClosed
      ensures controlSocket.isValid == (old(isControlConnectionClosed) && old(controlSocket.isValid))
    {
      state := Stopped;
      if !isControlConnectionClosed {
        isControlConnectionClosed := true;
        controlSocket.Close();
      }
    }
  }
}
