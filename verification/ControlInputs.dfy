/** Last-writer-wins control input over a channel that loses, reorders and duplicates. */
module ControlInputs {
  import opened Arithmetic
  import opened ByteOrder
  import opened Sessions
  import opened SessionRuns

  /** The highest input number delivered, 0 if none. */
  ghost function MaxId(ops: seq<Op>): nat {
    if ops == [] then 0
    else
      var m, op := MaxId(ops[..|ops| - 1]), ops[|ops| - 1];
      if op.Input? then Max(m, op.id) else m
  }

  /** Copies of one input are the same input. */
  ghost predicate Consistent(ops: seq<Op>) {
    forall i, j :: 0 <= i < |ops| && 0 <= j < |ops| && ops[i].Input? && ops[j].Input? && ops[i].id == ops[j].id ==>
      ops[i] == ops[j]
  }

  /** The body is under exactly this input, clamped. */
  ghost predicate Obeys(b: Body, op: Op)
    requires op.Input?
  {
    b.throttle == Clamp(op.throttle, -1.0, 1.0) && b.yaw == Clamp(op.yaw, -1.0, 1.0)
  }

  lemma {:induction false} LastInputIsHighest(s: Session, ops: seq<Op>, trig: Trig)
    ensures Run(s, ops, trig).body.lastInput == Max(s.body.lastInput, MaxId(ops))
  {
    if ops != [] {
      LastInputIsHighest(s, ops[..|ops| - 1], trig);
    }
  }

  /** Without a Stop, whatever is delivered in whatever order: inputs numbered at or below the
      last applied one change nothing, and otherwise the highest numbered one wins. */
  lemma {:induction false} HighestInputWins(s: Session, ops: seq<Op>, trig: Trig)
    requires NoStop(ops) && Consistent(ops)
    ensures var b := Run(s, ops, trig).body;
            if MaxId(ops) <= s.body.lastInput
            then b.throttle == s.body.throttle && b.yaw == s.body.yaw
            else forall k :: 0 <= k < |ops| && ops[k].Input? && ops[k].id == MaxId(ops) ==> Obeys(b, ops[k])
  {
    if ops != [] {
      var n := |ops| - 1;
      var p, op := ops[..n], ops[n];
      HighestInputWins(s, p, trig);
      LastInputIsHighest(s, p, trig);
      var mid := Run(s, p, trig);
      KeepsInput(mid, op, trig);
      if MaxId(ops) > s.body.lastInput {
        forall k | 0 <= k < |ops| && ops[k].Input? && ops[k].id == MaxId(ops)
          ensures Obeys(Perform(mid, op, trig).body, ops[k])
        {
          if op.Input? && op.id > mid.body.lastInput {
            BelowMax(p, k);
            assert k == n;
          } else {
            WinnerIsEarlier(p, ops, k);
            hide Perform, Run;
          }
        }
      }
    }
  }

  lemma {:induction false} BelowMax(ops: seq<Op>, k: nat)
    ensures k < |ops| && ops[k].Input? ==> ops[k].id <= MaxId(ops)
  {
    if ops != [] && k < |ops| - 1 {
      BelowMax(ops[..|ops| - 1], k);
    }
  }

  /** If the last op did not raise the maximum, an earlier copy carries the same input. */
  lemma WinnerIsEarlier(p: seq<Op>, ops: seq<Op>, k: nat)
    requires ops != [] && p == ops[..|ops| - 1] && Consistent(ops)
    requires k < |ops| && ops[k].Input? && ops[k].id == MaxId(ops) == MaxId(p) > 0
    ensures exists j :: 0 <= j < |p| && p[j].Input? && p[j].id == MaxId(p) && p[j] == ops[k]
  {
    var j := MaxIsDelivered(p);
    assert ops[j] == p[j];
  }

  lemma {:induction false} MaxIsDelivered(ops: seq<Op>) returns (j: nat)
    requires MaxId(ops) > 0
    ensures j < |ops| && ops[j].Input? && ops[j].id == MaxId(ops)
  {
    var n := |ops| - 1;
    if ops[n].Input? && ops[n].id == MaxId(ops) {
      j := n;
    } else {
      j := MaxIsDelivered(ops[..n]);
    }
  }

  /** No op but an input or a Stop touches the input a body is under. */
  lemma KeepsInput(s: Session, op: Op, trig: Trig)
    requires !op.Stop?
    ensures var b := Perform(s, op, trig).body;
            if op.Input? && op.id > s.body.lastInput
            then Obeys(b, op) && b.lastInput == op.id
            else b.throttle == s.body.throttle && b.yaw == s.body.yaw && b.lastInput == s.body.lastInput
  {
  }

  /** So two deliveries of the same inputs end under the same control. */
  lemma {:induction false} DeliveryOrderDoesNotMatter(s: Session, ops1: seq<Op>, ops2: seq<Op>, trig: Trig)
    requires NoStop(ops1) && NoStop(ops2) && Consistent(ops1) && Consistent(ops2)
    requires forall op: Op :: op.Input? ==> (op in ops1 <==> op in ops2)
    ensures var b1, b2 := Run(s, ops1, trig).body, Run(s, ops2, trig).body;
            b1.throttle == b2.throttle && b1.yaw == b2.yaw && b1.lastInput == b2.lastInput
  {
    HighestInputWins(s, ops1, trig);
    HighestInputWins(s, ops2, trig);
    LastInputIsHighest(s, ops1, trig);
    LastInputIsHighest(s, ops2, trig);
    SameMax(ops1, ops2);
    SameMax(ops2, ops1);
    if MaxId(ops1) > s.body.lastInput {
      var j1 := MaxIsDelivered(ops1);
      assert ops1[j1] in ops2;
      var j2 :| 0 <= j2 < |ops2| && ops2[j2] == ops1[j1];
      assert Obeys(Run(s, ops1, trig).body, ops1[j1]);
      assert Obeys(Run(s, ops2, trig).body, ops2[j2]);
    }
  }

  lemma SameMax(ops1: seq<Op>, ops2: seq<Op>)
    requires forall op: Op :: op.Input? && op in ops1 ==> op in ops2
    ensures MaxId(ops1) <= MaxId(ops2)
  {
    if MaxId(ops1) > 0 {
      var j := MaxIsDelivered(ops1);
      assert ops1[j] in ops2;
      var k :| 0 <= k < |ops2| && ops2[k] == ops1[j];
      BelowMax(ops2, k);
    }
  }

  /** After a Stop the entity stands still until an input newer than everything delivered
      before the Stop arrives; older ones can never move it again. */
  lemma {:induction false} StopSilencesOldInputs(s: Session, p: seq<Op>, q: seq<Op>, trig: Trig)
    requires NoStop(q) && Consistent(q)
    ensures var seen := Max(s.body.lastInput, MaxId(p));
            var b := Run(s, p + [Stop] + q, trig).body;
            if MaxId(q) <= seen
            then b.throttle == 0.0 && b.yaw == 0.0 && b.lastInput == seen
            else forall k :: 0 <= k < |q| && q[k].Input? && q[k].id == MaxId(q) ==> Obeys(b, q[k])
  {
    var stopped := Run(s, p + [Stop], trig);
    assert (p + [Stop])[..|p|] == p;
    LastInputIsHighest(s, p, trig);
    RunAppend(s, p + [Stop], q, trig);
    HighestInputWins(stopped, q, trig);
    LastInputIsHighest(stopped, q, trig);
  }

  // ----- from the client's hands to the server's entity -----

  /** The k-th input a client sends, counted from 0: its number wraps at 32 bits. */
  function Sent(sends: seq<(real, real)>, k: nat): Op
    requires k < |sends|
  {
    Input((k + 1) % TWO_TO_32, Clamp(sends[k].0, -1.0, 1.0), Clamp(sends[k].1, -1.0, 1.0))
  }

  /** Every input delivered was sent by the client. */
  ghost predicate FromClient(ops: seq<Op>, sends: seq<(real, real)>) {
    forall i :: 0 <= i < |ops| && ops[i].Input? ==> exists k :: 0 <= k < |sends| && ops[i] == Sent(sends, k)
  }

  /** With fewer than 2^32 inputs sent, a playing session ends under the latest sent one that
      was delivered at all. */
  lemma {:induction false} LatestDeliveredInputWins(ops: seq<Op>, sends: seq<(real, real)>, trig: Trig)
    requires |sends| < TWO_TO_32 && NoStop(ops) && FromClient(ops, sends)
    ensures var b := Run(NEW_SESSION, ops, trig).body;
            && b.lastInput == MaxId(ops) <= |sends|
            && (MaxId(ops) == 0 ==> b.throttle == 0.0 && b.yaw == 0.0)
            && (MaxId(ops) > 0 ==> Obeys(b, Sent(sends, MaxId(ops) - 1)))
    ensures forall i :: 0 <= i < |ops| && ops[i].Input? ==> ops[i].id <= MaxId(ops)
  {
    NumbersAreUnique(ops, sends);
    HighestInputWins(NEW_SESSION, ops, trig);
    LastInputIsHighest(NEW_SESSION, ops, trig);
    forall i | 0 <= i < |ops| && ops[i].Input?
      ensures ops[i].id <= MaxId(ops)
    {
      BelowMax(ops, i);
    }
    if MaxId(ops) > 0 {
      var j := MaxIsDelivered(ops);
      var k :| 0 <= k < |sends| && ops[j] == Sent(sends, k);
      assert k == MaxId(ops) - 1;
    }
  }

  lemma NumbersAreUnique(ops: seq<Op>, sends: seq<(real, real)>)
    requires |sends| < TWO_TO_32 && FromClient(ops, sends)
    ensures Consistent(ops)
  {
    forall i, j | 0 <= i < |ops| && 0 <= j < |ops| && ops[i].Input? && ops[j].Input? && ops[i].id == ops[j].id
      ensures ops[i] == ops[j]
    {
      var k :| 0 <= k < |sends| && ops[i] == Sent(sends, k);
      var l :| 0 <= l < |sends| && ops[j] == Sent(sends, l);
      SmallNumber(sends, k);
      SmallNumber(sends, l);
      hide Sent;
    }
  }

  lemma SmallNumber(sends: seq<(real, real)>, k: nat)
    requires |sends| < TWO_TO_32 && k < |sends|
    ensures Sent(sends, k).id == k + 1
  {
  }

  /** Inputs numbered 0 are lost on every session, and once number 2^32 - 1 has been applied so
      are all others, however often the numbering has wrapped. */
  lemma WrappedInputIsLost(sends: seq<(real, real)>, k: nat, b: Body)
    requires k < |sends| && ((k + 1) % TWO_TO_32 == 0 || b.lastInput >= TWO_TO_32 - 1)
    ensures var op := Sent(sends, k); ApplyInput(b, op.id, op.throttle, op.yaw) == b
  {
  }

  /** Every input delivered comes with the index at which the client sent it. */
  ghost predicate Delivers(ops: seq<Op>, ks: seq<nat>, sends: seq<(real, real)>) {
    |ks| == |ops| &&
    forall i :: 0 <= i < |ops| && ops[i].Input? ==> ks[i] < |sends| && ops[i] == Sent(sends, ks[i])
  }

  /** Op i is an input, and none delivered was sent after it. */
  ghost predicate IsNewest(ops: seq<Op>, ks: seq<nat>, i: nat)
    requires |ks| == |ops|
  {
    i < |ops| && ops[i].Input? && forall j :: 0 <= j < |ops| && ops[j].Input? ==> ks[j] <= ks[i]
  }

  /** With n inputs sent, whichever of them are delivered in whatever order and however often, a
      session that is not stopped ends under the newest one delivered. */
  ghost predicate NewestWins(n: nat, trig: Trig) {
    forall sends: seq<(real, real)>, ops: seq<Op>, ks: seq<nat>, i: nat ::
      |sends| == n && NoStop(ops) && Delivers(ops, ks, sends) && IsNewest(ops, ks, i) ==>
        Obeys(Run(NEW_SESSION, ops, trig).body, ops[i])
  }

  /** That is so exactly as long as the client has sent fewer than 2^32 inputs. */
  lemma NewestWinsIff(n: nat, trig: Trig)
    ensures NewestWins(n, trig) <==> n < TWO_TO_32
  {
    hide Run, Obeys;
    if n < TWO_TO_32 {
      forall sends: seq<(real, real)>, ops: seq<Op>, ks: seq<nat>, i: nat
        | |sends| == n && NoStop(ops) && Delivers(ops, ks, sends) && IsNewest(ops, ks, i)
        ensures Obeys(Run(NEW_SESSION, ops, trig).body, ops[i])
      {
        NewestIsObeyed(sends, ops, ks, i, trig);
      }
    } else {
      WrapHidesNewest(n, trig);
    }
  }

  lemma {:induction false} NewestIsObeyed(sends: seq<(real, real)>, ops: seq<Op>, ks: seq<nat>, i: nat, trig: Trig)
    requires |sends| < TWO_TO_32 && NoStop(ops) && Delivers(ops, ks, sends) && IsNewest(ops, ks, i)
    ensures Obeys(Run(NEW_SESSION, ops, trig).body, ops[i])
  {
    hide Run, Obeys, Clamp;
    assert FromClient(ops, sends);
    NumbersAreUnique(ops, sends);
    HighestInputWins(NEW_SESSION, ops, trig);
    BelowMax(ops, i);
    var j := MaxIsDelivered(ops);
    assert ops[j].id == ks[j] + 1 && ops[i].id == ks[i] + 1;
  }

  /** Number 2^32 - 1 arrives, then the input sent after it, which is numbered 0. */
  lemma WrapHidesNewest(n: nat, trig: Trig)
    requires n >= TWO_TO_32
    ensures !NewestWins(n, trig)
  {
    var top := TWO_TO_32 - 1;
    var sends := seq(n, k => if k == top then (1.0, 0.0) else (0.0, 0.0));
    var first, second := Sent(sends, top - 1), Sent(sends, top);
    assert first == Input(top, 0.0, 0.0) && second == Input(0, 1.0, 0.0);
    var ops, ks := [first, second], [top - 1, top];
    assert NoStop(ops) && Delivers(ops, ks, sends) && IsNewest(ops, ks, 1);
    assert ops[..1] == [first] && ops[..1][..0] == [];
    assert Run(NEW_SESSION, ops[..1][..0], trig) == NEW_SESSION;
    var mid := Run(NEW_SESSION, ops[..1], trig);
    assert mid == Perform(NEW_SESSION, first, trig);
    assert Run(NEW_SESSION, ops, trig) == Perform(mid, second, trig) == mid;
    assert !Obeys(mid.body, second);
  }

  ghost predicate NumberedBelow(ops: seq<Op>, n: nat) {
    forall i :: 0 <= i < |ops| && ops[i].Input? ==> ops[i].id < n
  }

  /** A session that has applied number 2^32 - 1 is deaf: no input of any client, whatever its
      number, is ever applied again, before or after any Stop. */
  lemma {:induction false} TopNumberDeafens(s: Session, q: seq<Op>, trig: Trig)
    requires s.body.lastInput >= TWO_TO_32 - 1 && NumberedBelow(q, TWO_TO_32)
    ensures var b := Run(s, q, trig).body;
            && b.lastInput == s.body.lastInput
            && b.throttle == (if NoStop(q) then s.body.throttle else 0.0)
            && b.yaw == (if NoStop(q) then s.body.yaw else 0.0)
  {
    hide Step, Clamp;
    if q != [] {
      var p, op := q[..|q| - 1], q[|q| - 1];
      TopNumberDeafens(s, p, trig);
      assert NoStop(q) <==> NoStop(p) && !op.Stop? by {
        assert forall i :: 0 <= i < |p| ==> q[i] == p[i];
      }
      KeepsThrottle(Run(s, p, trig), op, trig);
      hide Perform, Run, NoStop;
    }
  }

  lemma KeepsThrottle(s: Session, op: Op, trig: Trig)
    requires op.Input? ==> op.id <= s.body.lastInput
    ensures var b := Perform(s, op, trig).body;
            && b.lastInput == s.body.lastInput
            && b.throttle == (if op.Stop? then 0.0 else s.body.throttle)
            && b.yaw == (if op.Stop? then 0.0 else s.body.yaw)
  {
    hide NewHeading, NewSpeed;
  }

  /** And once such a session is stopped its entity never leaves the origin again. */
  lemma {:induction false} DeafStandsStill(s: Session, q: seq<Op>, trig: Trig)
    requires s.body.lastInput >= TWO_TO_32 - 1 && NumberedBelow(q, TWO_TO_32)
    ensures Run(StoppedSession(s), q, trig).body == AT_ORIGIN.(lastInput := s.body.lastInput)
  {
    if q != [] {
      DeafStandsStill(s, q[..|q| - 1], trig);
      var mid := Run(StoppedSession(s), q[..|q| - 1], trig);
      StandsStill(mid.body, trig);
      hide Step, Run;
    }
  }

  lemma StandsStill(b: Body, trig: Trig)
    requires b == AT_ORIGIN.(lastInput := b.lastInput)
    ensures Step(b, DT, trig) == b
  {
  }
}
