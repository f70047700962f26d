/** Runs of one server session: the client's commands, its control inputs and the physics
    ticks, in any order. */
module SessionRuns {
  import opened Streaming
  import opened Sessions

  /** The fixed physics step, 1/60 s. */
  const DT: real := 1.0 / 60.0

  datatype Op =
    | Input(id: nat, throttle: real, yaw: real)
    | Tick
    | Play
    | Pause
    | Stop
    | Reset
    | SetRate(hz: bv32)

  /** A tick moves the entity only while the session is playing. */
  function Perform(s: Session, op: Op, trig: Trig): Session {
    match op
    case Input(id, throttle, yaw) => s.(body := ApplyInput(s.body, id, throttle, yaw))
    case Tick => if s.state == Playing then s.(body := Step(s.body, DT, trig)) else s
    case Play => PlayedSession(s)
    case Pause => PausedSession(s)
    case Stop => StoppedSession(s)
    case Reset => ResetSession(s)
    case SetRate(hz) => WithRate(s, hz)
  }

  ghost predicate NoStop(ops: seq<Op>) {
    forall i :: 0 <= i < |ops| ==> !ops[i].Stop?
  }

  ghost function Run(s: Session, ops: seq<Op>, trig: Trig): Session {
    if ops == [] then s else Perform(Run(s, ops[..|ops| - 1], trig), ops[|ops| - 1], trig)
  }

  lemma {:induction false} RunAppend(s: Session, p: seq<Op>, q: seq<Op>, trig: Trig)
    ensures Run(s, p + q, trig) == Run(Run(s, p, trig), q, trig)
    decreases |q|
  {
    if q == [] {
      assert p + q == p;
    } else {
      RunAppend(s, p, q[..|q| - 1], trig);
      assert (p + q)[..|p + q| - 1] == p + q[..|q| - 1];
    }
  }

  function Ticks(n: nat): (ops: seq<Op>)
    ensures |ops| == n && forall i :: 0 <= i < n ==> ops[i] == Tick
  {
    seq(n, _ => Tick)
  }
}
