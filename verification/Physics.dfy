/** What the physics of a session can and cannot do, in every reachable state. */
module Physics {
  import opened Arithmetic
  import opened Streaming
  import opened Sessions
  import opened SessionRuns

  /** No reachable speed reaches this. */
  const SPEED_BOUND: real := 59.0 / 3.0

  // ----- the reachable bodies -----

  ghost predicate Reachable(b: Body) {
    && -1.0 <= b.throttle <= 1.0
    && -1.0 <= b.yaw <= 1.0
    && Abs(b.speed) < SPEED_BOUND
    && b.velocityX * b.velocityX + b.velocityY * b.velocityY <= b.speed * b.speed
  }

  function Drive(b: Body): real {
    (b.speed + b.throttle / 3.0) * (59.0 / 60.0)
  }

  /** At 60 Hz thrust adds a third of the throttle and drag keeps 59/60 of the sum, which
      stays inside the bound, so the 50-unit limit never acts. */
  lemma SpeedLimitNeverActs(b: Body)
    requires Reachable(b)
    ensures NewSpeed(b, DT) == Drive(b) && Abs(Drive(b)) < SPEED_BOUND
  {
    assert b.throttle * ACCELERATION * DT == b.throttle / 3.0;
    assert Clamp(1.0 - DRAG * DT, 0.0, 1.0) == 59.0 / 60.0;
  }

  lemma SpeedSquared(c: real, s: real, v: real)
    requires c * c + s * s == 1.0
    ensures (c * v) * (c * v) + (s * v) * (s * v) == v * v
  {
    assert (c * v) * (c * v) == (c * c) * (v * v);
    assert (s * v) * (s * v) == (s * s) * (v * v);
    assert (c * c) * (v * v) + (s * s) * (v * v) == (c * c + s * s) * (v * v);
  }

  lemma StepStaysReachable(b: Body, trig: Trig)
    requires OnUnitCircle(trig) && Reachable(b)
    ensures Reachable(Step(b, DT, trig))
    ensures var b' := Step(b, DT, trig);
            && b'.speed == Drive(b)
            && b'.velocityX * b'.velocityX + b'.velocityY * b'.velocityY == b'.speed * b'.speed
  {
    hide NewSpeed, NewHeading;
    SpeedLimitNeverActs(b);
    var h := NewHeading(b, DT);
    SpeedSquared(trig.cos(h), trig.sin(h), NewSpeed(b, DT));
  }

  /** One step turns the heading by at most 1/30 radian. */
  lemma TurnIsBounded(b: Body, trig: Trig)
    requires Reachable(b)
    ensures Abs(Step(b, DT, trig).heading - b.heading) <= 1.0 / 30.0
  {
    hide NewSpeed;
    assert b.yaw * YAW_RATE_MAX * DT == b.yaw / 30.0;
  }

  lemma PerformStaysReachable(s: Session, op: Op, trig: Trig)
    requires OnUnitCircle(trig) && Reachable(s.body)
    ensures Reachable(Perform(s, op, trig).body)
  {
    if op.Tick? {
      StepStaysReachable(s.body, trig);
    }
  }

  /** Every state a session can get into, from any mix of commands, inputs and ticks, has
      clamped inputs and a speed strictly below 59/3. */
  lemma {:induction false} RunStaysReachable(s: Session, ops: seq<Op>, trig: Trig)
    requires OnUnitCircle(trig) && Reachable(s.body)
    ensures Reachable(Run(s, ops, trig).body)
  {
    if ops != [] {
      RunStaysReachable(s, ops[..|ops| - 1], trig);
      PerformStaysReachable(Run(s, ops[..|ops| - 1], trig), ops[|ops| - 1], trig);
    }
  }

  lemma OriginIsReachable()
    ensures Reachable(NEW_SESSION.body)
  {
  }

  // ----- distance travelled -----

  /** The length of the path of one op: speed times the step, while playing. */
  ghost function Travel(s: Session, op: Op, trig: Trig): real {
    if op.Tick? && s.state == Playing then Abs(Step(s.body, DT, trig).speed) * DT else 0.0
  }

  ghost function PathLength(s: Session, ops: seq<Op>, trig: Trig): real {
    if ops == [] then 0.0
    else PathLength(s, ops[..|ops| - 1], trig) + Travel(Run(s, ops[..|ops| - 1], trig), ops[|ops| - 1], trig)
  }

  ghost function TickCount(ops: seq<Op>): nat {
    if ops == [] then 0 else TickCount(ops[..|ops| - 1]) + if ops[|ops| - 1].Tick? then 1 else 0
  }

  /** n ticks take the entity along a path of at most 59 n / 180 units. */
  lemma {:induction false} PathIsBounded(s: Session, ops: seq<Op>, trig: Trig)
    requires OnUnitCircle(trig) && Reachable(s.body)
    ensures 0.0 <= PathLength(s, ops, trig) <= TickCount(ops) as real * (59.0 / 180.0)
  {
    if ops != [] {
      var p, op := ops[..|ops| - 1], ops[|ops| - 1];
      PathIsBounded(s, p, trig);
      RunStaysReachable(s, p, trig);
      var mid := Run(s, p, trig);
      if op.Tick? && mid.state == Playing {
        StepStaysReachable(mid.body, trig);
      }
    }
  }

  function Square(x: real): real {
    x * x
  }

  lemma ProductPositive(x: real, y: real)
    requires 0.0 < x && 0.0 < y
    ensures 0.0 < x * y
  {
  }

  lemma SquareGrows(b: real, a: real)
    requires 0.0 <= b < a
    ensures Square(b) < Square(a)
  {
    var d := a - b;
    ProductPositive(d, d);
    assert a * a == (b + d) * (b + d) == b * b + 2.0 * (b * d) + d * d;
    assert 0.0 <= b * d;
  }

  lemma SquareGap(a: real, b: real)
    requires 0.0 <= a && 0.0 <= b && Square(a) <= Square(b)
    ensures a <= b
  {
    if b < a {
      SquareGrows(b, a);
    }
  }

  lemma ProductMonotone(a: real, b: real, c: real, d: real)
    requires 0.0 <= a <= c && 0.0 <= b <= d
    ensures a * b <= c * d
  {
    assert a * b <= a * d;
    assert a * d <= c * d;
  }

  lemma CauchySchwarz(x: real, y: real, u: real, v: real, l: real, m: real)
    requires 0.0 <= l && 0.0 <= m
    requires Square(x) + Square(y) <= Square(l) && Square(u) + Square(v) <= Square(m)
    ensures x * u + y * v <= l * m
  {
    var d := x * u + y * v;
    var cross := x * v - y * u;
    var n1, n2 := Square(x) + Square(y), Square(u) + Square(v);
    assert Square(d) + Square(cross) == n1 * n2;
    ProductMonotone(n1, n2, Square(l), Square(m));
    assert Square(l) * Square(m) == Square(l * m);
    assert 0.0 <= l * m;
    if d > 0.0 {
      hide Square;
      SquareNonNegative(cross);
      SquareGap(d, l * m);
    }
  }

  lemma SquareNonNegative(x: real)
    ensures 0.0 <= Square(x)
  {
  }

  lemma TriangleStep(x: real, y: real, u: real, v: real, l: real, m: real)
    requires 0.0 <= l && 0.0 <= m
    requires Square(x) + Square(y) <= Square(l) && Square(u) + Square(v) <= Square(m)
    ensures Square(x + u) + Square(y + v) <= Square(l + m)
  {
    CauchySchwarz(x, y, u, v, l, m);
    assert Square(x + u) + Square(y + v) ==
           (Square(x) + Square(y)) + 2.0 * (x * u + y * v) + (Square(u) + Square(v));
    assert Square(l + m) == Square(l) + 2.0 * (l * m) + Square(m);
  }

  /** How far b' is from b, squared. */
  function DistanceSquared(b: Body, b': Body): real {
    Square(b'.positionX - b.positionX) + Square(b'.positionY - b.positionY)
  }

  lemma ScaledNorm(u: real, v: real, w: real)
    requires u * u + v * v == w * w
    ensures Square(u * DT) + Square(v * DT) == Square(Abs(w) * DT)
  {
  }

  lemma StepDistance(b: Body, trig: Trig)
    requires OnUnitCircle(trig) && Reachable(b)
    ensures var b' := Step(b, DT, trig);
            DistanceSquared(b, b') == Square(Abs(b'.speed) * DT)
  {
    hide NewSpeed, NewHeading, Square;
    StepStaysReachable(b, trig);
    var b' := Step(b, DT, trig);
    assert b'.positionX - b.positionX == b'.velocityX * DT;
    assert b'.positionY - b.positionY == b'.velocityY * DT;
    ScaledNorm(b'.velocityX, b'.velocityY, b'.speed);
  }

  lemma OneOpDisplacement(from: Body, mid: Session, op: Op, path: real, trig: Trig)
    requires OnUnitCircle(trig) && Reachable(mid.body) && !op.Stop?
    requires 0.0 <= path && DistanceSquared(from, mid.body) <= Square(path)
    ensures DistanceSquared(from, Perform(mid, op, trig).body) <= Square(path + Travel(mid, op, trig))
  {
    hide Square, Step;
    if op.Tick? && mid.state == Playing {
      StepDistance(mid.body, trig);
      var end := Perform(mid, op, trig).body;
      var dx, dy := mid.body.positionX - from.positionX, mid.body.positionY - from.positionY;
      var ux, uy := end.positionX - mid.body.positionX, end.positionY - mid.body.positionY;
      TriangleStep(dx, dy, ux, uy, path, Travel(mid, op, trig));
      assert dx + ux == end.positionX - from.positionX && dy + uy == end.positionY - from.positionY;
    }
  }

  /** Between two stops the entity is never further from where it was than its path is long. */
  lemma {:induction false} DisplacementIsAtMostPath(s: Session, ops: seq<Op>, trig: Trig)
    requires OnUnitCircle(trig) && Reachable(s.body) && NoStop(ops)
    ensures DistanceSquared(s.body, Run(s, ops, trig).body) <= Square(PathLength(s, ops, trig))
  {
    if ops != [] {
      var p, op := ops[..|ops| - 1], ops[|ops| - 1];
      DisplacementIsAtMostPath(s, p, trig);
      PathIsBounded(s, p, trig);
      RunStaysReachable(s, p, trig);
      hide Square, Perform, Travel, DistanceSquared;
      OneOpDisplacement(s.body, Run(s, p, trig), op, PathLength(s, p, trig), trig);
    }
  }

  // ----- coasting and full throttle -----

  ghost function Power(x: real, n: nat): real {
    if n == 0 then 1.0 else x * Power(x, n - 1)
  }

  const KEEP: real := 59.0 / 60.0

  lemma {:induction false} PowerPositive(n: nat)
    ensures 0.0 < Power(KEEP, n) <= 1.0
  {
    if n > 0 {
      PowerPositive(n - 1);
    }
  }

  lemma TicksSnoc(n: nat)
    requires n > 0
    ensures Ticks(n)[..n - 1] == Ticks(n - 1) && Ticks(n)[n - 1] == Tick
  {
  }

  lemma CoastTick(mid: Session, trig: Trig)
    requires OnUnitCircle(trig) && Reachable(mid.body) && mid.state == Playing && mid.body.throttle == 0.0
    ensures var end := Perform(mid, Tick, trig);
            && end.state == Playing && end.body.throttle == 0.0 && end.body.speed == mid.body.speed * KEEP
            && Travel(mid, Tick, trig) == Abs(mid.body.speed * KEEP) * DT
  {
    StepStaysReachable(mid.body, trig);
  }

  lemma {:induction false} CoastingPath(s: Session, n: nat, trig: Trig)
    requires OnUnitCircle(trig) && Reachable(s.body) && s.state == Playing && s.body.throttle == 0.0
    ensures var s' := Run(s, Ticks(n), trig);
            && Reachable(s'.body) && s'.state == Playing && s'.body.throttle == 0.0
            && PathLength(s, Ticks(n), trig) == KEEP * (Abs(s.body.speed) - Abs(s'.body.speed))
  {
    RunStaysReachable(s, Ticks(n), trig);
    if n > 0 {
      TicksSnoc(n);
      CoastingPath(s, n - 1, trig);
      hide Perform, Travel, Reachable, OnUnitCircle;
      CoastTick(Run(s, Ticks(n - 1), trig), trig);
    }
  }

  lemma {:induction false} CoastingSpeed(s: Session, n: nat, trig: Trig)
    requires OnUnitCircle(trig) && Reachable(s.body) && s.state == Playing && s.body.throttle == 0.0
    ensures Run(s, Ticks(n), trig).body.speed == Scaled(s.body.speed, n)
  {
    hide Scaled, Perform, Travel, Reachable, OnUnitCircle, PathLength;
    if n == 0 {
      ScaledZero(s.body.speed);
    } else {
      TicksSnoc(n);
      CoastingPath(s, n - 1, trig);
      CoastingSpeed(s, n - 1, trig);
      CoastTick(Run(s, Ticks(n - 1), trig), trig);
      ScaledSuccessor(s.body.speed, n);
    }
  }

  ghost function Scaled(v: real, n: nat): real {
    v * Power(KEEP, n)
  }

  lemma ScaledZero(v: real)
    ensures Scaled(v, 0) == v
  {
  }

  lemma ScaledSuccessor(v: real, n: nat)
    requires n > 0
    ensures Scaled(v, n) == Scaled(v, n - 1) * KEEP
  {
    var p := Power(KEEP, n - 1);
    assert v * (KEEP * p) == v * p * KEEP;
  }

  /** With throttle 0 the speed decays by 59/60 a tick, and the path is what the lost speed
      pays for: never as much as 59/60 of the initial speed. */
  lemma Coasting(s: Session, n: nat, trig: Trig)
    requires OnUnitCircle(trig) && Reachable(s.body) && s.state == Playing && s.body.throttle == 0.0
    ensures var s' := Run(s, Ticks(n), trig);
            && s'.body.speed == s.body.speed * Power(KEEP, n)
            && PathLength(s, Ticks(n), trig) == KEEP * (Abs(s.body.speed) - Abs(s'.body.speed))
    ensures s.body.speed != 0.0 ==> PathLength(s, Ticks(n), trig) < Abs(s.body.speed) * KEEP
  {
    hide Run, PathLength, Power, Reachable, OnUnitCircle;
    CoastingPath(s, n, trig);
    CoastingSpeed(s, n, trig);
    PowerPositive(n);
    StillMoving(s.body.speed, Power(KEEP, n));
  }

  lemma StillMoving(v: real, p: real)
    requires 0.0 < p
    ensures v != 0.0 ==> Abs(v * p) > 0.0
  {
    if v > 0.0 {
      assert v * p > 0.0;
    } else if v < 0.0 {
      assert (-v) * p > 0.0;
    }
  }

  /** From rest at full throttle the speed after n ticks is 59/3 (1 - (59/60)^n). */
  lemma {:induction false} FullThrottle(s: Session, n: nat, trig: Trig)
    requires OnUnitCircle(trig) && Reachable(s.body) && s.state == Playing
    requires s.body.throttle == 1.0 && s.body.speed == 0.0
    ensures var s' := Run(s, Ticks(n), trig);
            && s'.state == Playing && s'.body.throttle == 1.0
            && s'.body.speed == SPEED_BOUND * (1.0 - Power(KEEP, n))
  {
    if n > 0 {
      TicksSnoc(n);
      FullThrottle(s, n - 1, trig);
      RunStaysReachable(s, Ticks(n - 1), trig);
      StepStaysReachable(Run(s, Ticks(n - 1), trig).body, trig);
    }
  }

  lemma {:induction false} Bernoulli(n: nat)
    ensures Power(KEEP, n) * (59.0 + n as real) <= 59.0
  {
    if n > 0 {
      Bernoulli(n - 1);
      PowerPositive(n - 1);
      var p, k := Power(KEEP, n - 1), n as real;
      assert p * (58.0 + k) <= 59.0;
      BernoulliStep(p, k);
    }
  }

  lemma BernoulliStep(p: real, k: real)
    requires 0.0 < p && 1.0 <= k && p * (58.0 + k) <= 59.0
    ensures KEEP * p * (59.0 + k) <= 59.0
  {
    assert 59.0 * (59.0 + k) <= 60.0 * (58.0 + k);
    assert p * (59.0 * (59.0 + k)) <= p * (60.0 * (58.0 + k));
    assert KEEP * p * (59.0 + k) * 60.0 == p * (59.0 * (59.0 + k));
    assert p * (60.0 * (58.0 + k)) == 60.0 * (p * (58.0 + k));
  }

  /** So the bound cannot be lowered: the gap to it shrinks below any 59 * 59 / (3 (59 + n)). */
  lemma BoundIsTight(s: Session, n: nat, trig: Trig)
    requires OnUnitCircle(trig) && Reachable(s.body) && s.state == Playing
    requires s.body.throttle == 1.0 && s.body.speed == 0.0
    ensures (SPEED_BOUND - Run(s, Ticks(n), trig).body.speed) * (59.0 + n as real) <= SPEED_BOUND * 59.0
  {
    FullThrottle(s, n, trig);
    Bernoulli(n);
    var p := Power(KEEP, n);
    assert SPEED_BOUND - SPEED_BOUND * (1.0 - p) == SPEED_BOUND * p;
    assert SPEED_BOUND * p * (59.0 + n as real) == SPEED_BOUND * (p * (59.0 + n as real));
  }
}
