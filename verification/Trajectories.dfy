/** Where the simulated helicopter goes (Server/ClientSession.cpp), in closed form. */
module Trajectories {
  import opened Streaming
  import opened Sessions
  import opened SessionRuns
  import opened Physics

  /** Wherever a run of commands, inputs and ticks takes a new session, its velocity is its speed
      along its present heading. */
  lemma {:induction false} VelocityFollowsHeading(ops: seq<Op>, trig: Trig)
    ensures var b := Run(NEW_SESSION, ops, trig).body;
            b.velocityX == trig.cos(b.heading) * b.speed && b.velocityY == trig.sin(b.heading) * b.speed
  {
    hide NewHeading, NewSpeed, Clamp;
    if ops != [] {
      VelocityFollowsHeading(ops[..|ops| - 1], trig);
      assert trig.cos(0.0) * 0.0 == 0.0 && trig.sin(0.0) * 0.0 == 0.0;
    }
  }

  /** A tick turns a playing entity by a thirtieth of its yaw input and then carries it along its
      new velocity for a sixtieth of a second; any other entity it leaves alone. */
  lemma TickCarriesAlongNewVelocity(s: Session, trig: Trig)
    ensures var b, b' := s.body, Perform(s, Tick, trig).body;
            if s.state == Playing then
              && b'.heading == b.heading + b.yaw / 30.0
              && b'.velocityX == trig.cos(b.heading + b.yaw / 30.0) * b'.speed
              && b'.velocityY == trig.sin(b.heading + b.yaw / 30.0) * b'.speed
              && b'.positionX == b.positionX + b'.velocityX / 60.0
              && b'.positionY == b.positionY + b'.velocityY / 60.0
              && b'.throttle == b.throttle && b'.yaw == b.yaw && b'.lastInput == b.lastInput
            else b' == b
  {
    hide NewSpeed;
    assert NewHeading(s.body, DT) == s.body.heading + s.body.yaw / 30.0;
  }

  /** Under a constant yaw input y the heading after n ticks has turned by exactly n y / 30. */
  lemma {:induction false} TurnIsUniform(s: Session, n: nat, trig: Trig)
    requires s.state == Playing
    ensures var s' := Run(s, Ticks(n), trig);
            && s'.state == Playing && s'.body.yaw == s.body.yaw
            && s'.body.heading == s.body.heading + n as real * (s.body.yaw / 30.0)
  {
    if n > 0 {
      TicksSnoc(n);
      TurnIsUniform(s, n - 1, trig);
      var mid := Run(s, Ticks(n - 1), trig);
      OneTurn(mid, trig);
      hide Perform;
      assert n as real * (s.body.yaw / 30.0) == (n - 1) as real * (s.body.yaw / 30.0) + s.body.yaw / 30.0;
    }
  }

  lemma OneTurn(mid: Session, trig: Trig)
    requires mid.state == Playing
    ensures var end := Perform(mid, Tick, trig);
            && end.state == Playing && end.body.yaw == mid.body.yaw
            && end.body.heading == mid.body.heading + mid.body.yaw / 30.0
  {
  }

  /** The coordinate x moved by `way` in a direction whose cosine with its axis is c. */
  function Shifted(x: real, c: real, way: real): real {
    x + c * way
  }

  function Way(first: real, last: real): real {
    KEEP * (first - last)
  }

  /** Left alone, a moving helicopter coasts along a straight line in its heading, by 59/60 of
      the speed it has lost so far. */
  lemma {:induction false} CoastingTrajectory(s: Session, n: nat, trig: Trig)
    requires OnUnitCircle(trig) && Reachable(s.body) && s.state == Playing
    requires s.body.throttle == 0.0 && s.body.yaw == 0.0
    ensures var b, b' := s.body, Run(s, Ticks(n), trig).body;
            && b'.heading == b.heading
            && b'.positionX == Shifted(b.positionX, trig.cos(b.heading), Way(b.speed, b'.speed))
            && b'.positionY == Shifted(b.positionY, trig.sin(b.heading), Way(b.speed, b'.speed))
  {
    var b := s.body;
    TurnIsUniform(s, n, trig);
    if n > 0 {
      TicksSnoc(n);
      TurnIsUniform(s, n - 1, trig);
      var mid := Run(s, Ticks(n - 1), trig);
      assert mid.body.heading == b.heading;
      hide Perform, Reachable, OnUnitCircle, PathLength, Shifted, Way;
      CoastingTrajectory(s, n - 1, trig);
      CoastingPath(s, n - 1, trig);
      CoastStep(mid, trig);
      var end := Perform(mid, Tick, trig);
      OneMoreStep(b.positionX, trig.cos(b.heading), b.speed, mid.body.speed, end.body.speed);
      OneMoreStep(b.positionY, trig.sin(b.heading), b.speed, mid.body.speed, end.body.speed);
    }
  }

  lemma CoastStep(mid: Session, trig: Trig)
    requires OnUnitCircle(trig) && Reachable(mid.body) && mid.state == Playing
    requires mid.body.throttle == 0.0 && mid.body.yaw == 0.0
    ensures var b, b' := mid.body, Perform(mid, Tick, trig).body;
            && b'.speed == KEEP * b.speed
            && b'.positionX == Shifted(b.positionX, trig.cos(b.heading), b'.speed * DT)
            && b'.positionY == Shifted(b.positionY, trig.sin(b.heading), b'.speed * DT)
  {
    hide OnUnitCircle;
    SpeedLimitNeverActs(mid.body);
    hide Reachable;
    assert NewHeading(mid.body, DT) == mid.body.heading;
  }

  lemma OneMoreStep(x: real, c: real, first: real, before: real, after: real)
    requires after == KEEP * before
    ensures Shifted(Shifted(x, c, Way(first, before)), c, after * DT) == Shifted(x, c, Way(first, after))
  {
    var u, v := Way(first, before), after * DT;
    assert u + v == Way(first, after);
    assert c * (u + v) == c * u + c * v;
  }
}
