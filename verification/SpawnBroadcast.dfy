/** The spawn / despawn broadcast (Server/TcpControlServer.cpp) over every interleaving of
    clients that connect, register, leave, receive announcements and receive state updates.

    A client's announcements travel on its own TCP connection, a queue. Entity ids are the low
    32 bits of session ids. Each broadcast is one step. Unlike the happy path, a session sits
    in the table from the moment it is accepted, before it has registered. */
module SpawnBroadcast {
  import opened Worlds

  datatype Message = SpawnOf(id: nat) | DespawnOf(id: nat)

  /** The ids a client's world shows, and which of them it takes for its own. */
  datatype Known = Known(ids: set<nat>, own: Own<nat>)

  const NOTHING := Known({}, Unknown)

  function HearId(k: Known, m: Message): Known {
    match m
    case SpawnOf(id) => Known(k.ids + {id}, if k.own.Unknown? then Mine(id) else k.own)
    case DespawnOf(id) => k.(ids := k.ids - {id})
  }

  /** A world with its pending announcements played into it. */
  ghost function Replay(k: Known, pending: seq<Message>): Known {
    if pending == [] then k else HearId(Replay(k, pending[..|pending| - 1]), pending[|pending| - 1])
  }

  /** A session in the server's table and its client. */
  datatype Member = Member(registered: bool, world: Known, pending: seq<Message>)

  datatype State = State(members: map<nat, Member>, next: nat)

  const EMPTY := State(map[], 1)

  function EntityId(session: nat): nat {
    session % 0x1_0000_0000
  }

  datatype Step =
    | Accept
    | Register(session: nat, port: nat, order: seq<nat>)
    | Leave(session: nat)
    | Deliver(session: nat)
    | Update(session: nat, id: nat)

  /** `order` is the order in which the table's snapshot lists the sessions. */
  ghost predicate Enabled(s: State, step: Step) {
    match step
    case Accept => true
    case Register(c, _, order) => c in s.members && forall x :: x in order <==> x in s.members
    case Leave(c) => c in s.members
    case Deliver(c) => c in s.members && s.members[c].pending != []
    case Update(c, _) => c in s.members
  }

  function Spawns(order: seq<nat>, except: nat): seq<Message> {
    if order == [] then []
    else (if order[0] == except then [] else [SpawnOf(EntityId(order[0]))]) + Spawns(order[1..], except)
  }

  function Sent(m: Member, messages: seq<Message>): Member {
    m.(pending := m.pending + messages)
  }

  /** A newcomer hears its own Spawn first, then everyone's in the table; everyone else in the
      table hears the newcomer's. */
  function Registered(s: State, c: nat, order: seq<nat>): State
    requires c in s.members
  {
    s.(members := map x | x in s.members ::
      if x == c then Sent(s.members[c].(registered := true), [SpawnOf(EntityId(c))] + Spawns(order, c))
      else Sent(s.members[x], [SpawnOf(EntityId(c))]))
  }

  /** Port 0 only drops the registered flag. */
  function Revoked(s: State, c: nat): State
    requires c in s.members
  {
    s.(members := s.members[c := s.members[c].(registered := false)])
  }

  /** A registered session is despawned at all others before it leaves the table. */
  function Left(s: State, c: nat): State
    requires c in s.members
  {
    s.(members := map x | x in s.members && x != c ::
      if s.members[c].registered then Sent(s.members[x], [DespawnOf(EntityId(c))]) else s.members[x])
  }

  function Delivered(s: State, c: nat): State
    requires c in s.members && s.members[c].pending != []
  {
    var m := s.members[c];
    s.(members := s.members[c := m.(world := HearId(m.world, m.pending[0]), pending := m.pending[1..])])
  }

  function Updated(s: State, c: nat, id: nat): State
    requires c in s.members
  {
    var m := s.members[c];
    s.(members := s.members[c := m.(world := m.world.(ids := m.world.ids + {id}))])
  }

  ghost function Take(s: State, step: Step): State
    requires Enabled(s, step)
  {
    match step
    case Accept => State(s.members[s.next := Member(false, NOTHING, [])], s.next + 1)
    case Register(c, port, order) => if port == 0 then Revoked(s, c) else Registered(s, c, order)
    case Leave(c) => Left(s, c)
    case Deliver(c) => Delivered(s, c)
    case Update(c, id) => Updated(s, c, id)
  }

  // ----- what the protocol is for -----

  /** The entities of the registered sessions. */
  ghost function Live(s: State): set<nat> {
    set x | x in s.members && s.members[x].registered :: EntityId(x)
  }

  ghost function Shown(m: Member): Known {
    Replay(m.world, m.pending)
  }

  ghost function Expected(s: State, c: nat): Known
    requires c in s.members
  {
    if s.members[c].registered then Known(Live(s), Mine(EntityId(c))) else NOTHING
  }

  /** Once its pending announcements are in, every registered client shows exactly the
      registered sessions and knows which one it is; the others show nothing yet. */
  ghost predicate Converged(s: State) {
    forall c :: c in s.members ==> Shown(s.members[c]) == Expected(s, c)
  }

  /** Session numbers are issued upwards from 1 and have not wrapped at 32 bits. */
  ghost predicate Numbered(s: State) {
    1 <= s.next <= 0x1_0000_0000 && forall c :: c in s.members ==> 1 <= c < s.next
  }

  ghost predicate OthersRegistered(s: State, c: nat) {
    forall x :: x in s.members && x != c ==> s.members[x].registered
  }

  /** What a step must respect: a session registers only while no other one is accepted but
      unregistered, a registered session is not revoked, and no state update arrives for an
      entity whose Despawn has already been heard. */
  ghost predicate Safe(s: State, step: Step)
    requires Enabled(s, step)
  {
    match step
    case Register(c, port, _) => if port == 0 then !s.members[c].registered else OthersRegistered(s, c)
    case Update(c, id) =>
      DespawnOf(id) in s.members[c].pending || (s.members[c].registered && id in Live(s))
    case _ => true
  }

  // ----- replaying queues -----

  lemma {:induction false} ReplayAppend(k: Known, p: seq<Message>, q: seq<Message>)
    ensures Replay(k, p + q) == Replay(Replay(k, p), q)
    decreases |q|
  {
    if q == [] {
      assert p + q == p;
    } else {
      assert (p + q)[..|p + q| - 1] == p + q[..|q| - 1];
      ReplayAppend(k, p, q[..|q| - 1]);
    }
  }

  lemma ReplayOne(k: Known, m: Message)
    ensures Replay(k, [m]) == HearId(k, m)
  {
    assert [m][..0] == [];
    assert Replay(k, []) == k;
  }

  lemma {:induction false} ReplaySpawns(k: Known, order: seq<nat>, except: nat)
    requires k.own.Mine?
    ensures Replay(k, Spawns(order, except)) == k.(ids := k.ids + set x | x in order && x != except :: EntityId(x))
    decreases order
  {
    if order == [] {
      assert (set x | x in order && x != except :: EntityId(x)) == {};
    } else {
      var first := if order[0] == except then [] else [SpawnOf(EntityId(order[0]))];
      var rest := Spawns(order[1..], except);
      ReplayAppend(k, first, rest);
      if order[0] == except {
        ReplaySpawns(k, order[1..], except);
      } else {
        ReplayOne(k, first[0]);
        ReplaySpawns(HearId(k, first[0]), order[1..], except);
      }
      var ids := set x | x in order && x != except :: EntityId(x);
      var restIds := set x | x in order[1..] && x != except :: EntityId(x);
      assert ids == restIds + if order[0] == except then {} else {EntityId(order[0])} by {
        assert order == [order[0]] + order[1..];
      }
    }
  }

  /** An id seen early survives the queue unless its Despawn is in it. */
  lemma {:induction false} ReplayExtra(k: Known, id: nat, pending: seq<Message>)
    ensures Replay(k.(ids := k.ids + {id}), pending) ==
            var r := Replay(k, pending);
            if DespawnOf(id) in pending then r else r.(ids := r.ids + {id})
  {
    if pending != [] {
      var p, m := pending[..|pending| - 1], pending[|pending| - 1];
      assert pending == p + [m];
      ReplayExtra(k, id, p);
    }
  }

  lemma ShownAfter(m: Member, messages: seq<Message>)
    ensures Shown(Sent(m, messages)) == Replay(Shown(m), messages)
  {
    ReplayAppend(m.world, m.pending, messages);
  }

  lemma SmallId(session: nat)
    requires session < 0x1_0000_0000
    ensures EntityId(session) == session
  {
  }

  // ----- each step -----

  lemma OthersHearNewcomer(s: State, c: nat, order: seq<nat>, x: nat)
    requires c in s.members && x in s.members && x != c
    ensures Shown(Registered(s, c, order).members[x]) == HearId(Shown(s.members[x]), SpawnOf(EntityId(c)))
  {
    ShownAfter(s.members[x], [SpawnOf(EntityId(c))]);
    ReplayOne(Shown(s.members[x]), SpawnOf(EntityId(c)));
  }

  lemma RegisterStep(s: State, c: nat, order: seq<nat>)
    requires Numbered(s) && Converged(s) && Enabled(s, Register(c, 1, order))
    ensures Converged(Registered(s, c, order)) <==> OthersRegistered(s, c)
  {
    var s' := Registered(s, c, order);
    if OthersRegistered(s, c) {
      NewcomerShowsAll(s, c, order);
      LiveAfterRegister(s, c, order);
      hide Live, Shown, EntityId;
      forall x | x in s'.members
        ensures Shown(s'.members[x]) == Expected(s', x)
      {
        if x != c {
          OthersHearNewcomer(s, c, order, x);
        }
      }
    } else {
      var u :| u in s.members && u != c && !s.members[u].registered;
      hide Live, Shown;
      OthersHearNewcomer(s, c, order, u);
      assert Expected(s', u) == NOTHING != Shown(s'.members[u]);
    }
  }

  lemma LiveAfterRegister(s: State, c: nat, order: seq<nat>)
    requires c in s.members
    ensures Live(Registered(s, c, order)) == Live(s) + {EntityId(c)}
  {
    var s' := Registered(s, c, order);
    forall e
      ensures e in Live(s') <==> e in Live(s) + {EntityId(c)}
    {
      if e in Live(s) {
        var x :| x in s.members && s.members[x].registered && EntityId(x) == e;
        assert s'.members[x].registered;
      }
      assert s'.members[c].registered;
    }
  }

  lemma NewcomerShowsAll(s: State, c: nat, order: seq<nat>)
    requires Numbered(s) && Converged(s) && Enabled(s, Register(c, 1, order)) && OthersRegistered(s, c)
    ensures Shown(Registered(s, c, order).members[c]) == Known(Live(s) + {EntityId(c)}, Mine(EntityId(c)))
  {
    var e := EntityId(c);
    var before := Shown(s.members[c]);
    ShownAfter(s.members[c].(registered := true), [SpawnOf(e)] + Spawns(order, c));
    ReplayAppend(before, [SpawnOf(e)], Spawns(order, c));
    ReplayOne(before, SpawnOf(e));
    ReplaySpawns(HearId(before, SpawnOf(e)), order, c);
    var others := set x | x in order && x != c :: EntityId(x);
    assert others + {e} == Live(s) + {e};
  }

  lemma RevokeStep(s: State, c: nat)
    requires Converged(s) && c in s.members
    ensures Converged(Revoked(s, c)) <==> !s.members[c].registered
  {
    var s' := Revoked(s, c);
    if s.members[c].registered {
      assert Shown(s'.members[c]).own.Mine?;
    } else {
      assert s'.members == s.members;
    }
  }

  lemma LeaveStep(s: State, c: nat)
    requires Numbered(s) && Converged(s) && c in s.members
    ensures Converged(Left(s, c))
  {
    var s' := Left(s, c);
    var e := EntityId(c);
    forall x | x in s.members
      ensures EntityId(x) == x
    {
      SmallId(x);
    }
    assert Live(s') == Live(s) - {e} by {
      LiveAfterLeave(s, c);
    }
    forall x | x in s'.members
      ensures Shown(s'.members[x]) == Expected(s', x)
    {
      if s.members[c].registered {
        ShownAfter(s.members[x], [DespawnOf(e)]);
        ReplayOne(Shown(s.members[x]), DespawnOf(e));
      } else {
        assert e !in Live(s);
      }
    }
  }

  lemma LiveAfterLeave(s: State, c: nat)
    requires Numbered(s) && c in s.members
    ensures Live(Left(s, c)) == Live(s) - {EntityId(c)}
    ensures !s.members[c].registered ==> EntityId(c) !in Live(s)
  {
    var s' := Left(s, c);
    forall x | x in s.members
      ensures EntityId(x) == x
    {
      SmallId(x);
    }
    forall e
      ensures e in Live(s') <==> e in Live(s) - {EntityId(c)}
    {
      if e in Live(s) - {EntityId(c)} {
        var x :| x in s.members && s.members[x].registered && EntityId(x) == e;
        assert x in s'.members && s'.members[x].registered;
      }
    }
  }

  lemma DeliverStep(s: State, c: nat)
    requires Converged(s) && Enabled(s, Deliver(c))
    ensures Converged(Delivered(s, c))
  {
    var s', m := Delivered(s, c), s.members[c];
    assert m.pending == [m.pending[0]] + m.pending[1..];
    ReplayAppend(m.world, [m.pending[0]], m.pending[1..]);
    ReplayOne(m.world, m.pending[0]);
    assert forall x :: x in s.members ==> s'.members[x].registered == s.members[x].registered;
    assert Live(s') == Live(s);
    assert forall x :: x in s.members ==> Shown(s'.members[x]) == Shown(s.members[x]);
  }

  lemma UpdateStep(s: State, c: nat, id: nat)
    requires Converged(s) && c in s.members
    ensures Converged(Updated(s, c, id)) <==> Safe(s, Update(c, id))
  {
    var s', m := Updated(s, c, id), s.members[c];
    assert forall x :: x in s.members ==> s'.members[x].registered == s.members[x].registered;
    assert Live(s') == Live(s);
    ReplayExtra(m.world, id, m.pending);
    assert forall x :: x in s.members && x != c ==> Shown(s'.members[x]) == Shown(s.members[x]);
    if Safe(s, Update(c, id)) {
      assert Shown(s'.members[c]) == Shown(m);
    } else {
      assert id in Shown(s'.members[c]).ids && id !in Expected(s', c).ids;
    }
  }

  lemma AcceptStep(s: State)
    requires Numbered(s) && Converged(s)
    ensures Converged(Take(s, Accept))
  {
    var s' := Take(s, Accept);
    assert s.next !in s.members;
    assert Live(s') == Live(s) by {
      forall e ensures e in Live(s') <==> e in Live(s) {
        if e in Live(s) {
          var x :| x in s.members && s.members[x].registered && EntityId(x) == e;
          assert s'.members[x] == s.members[x];
        }
      }
    }
    assert forall x :: x in s.members ==> s'.members[x] == s.members[x];
    assert Shown(s'.members[s.next]) == NOTHING;
  }

  /** From a converged state, a step leads to a converged state exactly when it is safe. */
  lemma StepConverges(s: State, step: Step)
    requires Numbered(s) && Converged(s) && Enabled(s, step)
    ensures Converged(Take(s, step)) <==> Safe(s, step)
  {
    match step
    case Accept => AcceptStep(s);
    case Register(c, port, order) =>
      if port == 0 {
        RevokeStep(s, c);
      } else {
        RegisterStep(s, c, order);
      }
    case Leave(c) => LeaveStep(s, c);
    case Deliver(c) => DeliverStep(s, c);
    case Update(c, id) => UpdateStep(s, c, id);
  }

  // ----- whole runs -----

  ghost predicate RunsTo(s: State, steps: seq<Step>, s': State)
    decreases steps
  {
    if steps == [] then s == s'
    else Enabled(s, steps[0]) && RunsTo(Take(s, steps[0]), steps[1..], s')
  }

  ghost predicate SafeRun(s: State, steps: seq<Step>)
    decreases steps
  {
    steps == [] ||
    (Enabled(s, steps[0]) && Safe(s, steps[0]) && SafeRun(Take(s, steps[0]), steps[1..]))
  }

  lemma NumberedStep(s: State, step: Step)
    requires Numbered(s) && Enabled(s, step)
    ensures s.next <= Take(s, step).next
    ensures Take(s, step).next <= 0x1_0000_0000 ==> Numbered(Take(s, step))
  {
  }

  lemma {:induction false} NextOnlyGrows(s: State, steps: seq<Step>, s': State)
    requires Numbered(s) && RunsTo(s, steps, s') && s'.next <= 0x1_0000_0000
    ensures s.next <= s'.next
    ensures steps != [] ==> Take(s, steps[0]).next <= s'.next
    decreases steps
  {
    if steps != [] {
      NumberedStep(s, steps[0]);
      if Take(s, steps[0]).next <= 0x1_0000_0000 {
        NextOnlyGrows(Take(s, steps[0]), steps[1..], s');
      } else {
        NextNeverShrinks(Take(s, steps[0]), steps[1..], s');
      }
    }
  }

  lemma {:induction false} NextNeverShrinks(s: State, steps: seq<Step>, s': State)
    requires RunsTo(s, steps, s')
    ensures s.next <= s'.next
    decreases steps
  {
    if steps != [] {
      NextNeverShrinks(Take(s, steps[0]), steps[1..], s');
    }
  }

  /** Every state of a safe run with fewer than 2^32 sessions is converged. */
  lemma {:induction false} SafeRunsConverge(s: State, steps: seq<Step>, s': State)
    requires Numbered(s) && Converged(s)
    requires RunsTo(s, steps, s') && SafeRun(s, steps) && s'.next <= 0x1_0000_0000
    ensures Converged(s') && Numbered(s')
    decreases steps
  {
    if steps != [] {
      NextOnlyGrows(s, steps, s');
      NumberedStep(s, steps[0]);
      StepConverges(s, steps[0]);
      SafeRunsConverge(Take(s, steps[0]), steps[1..], s');
    }
  }

  /** The state is converged at the start and after every step of the run. */
  ghost predicate ConvergedThroughout(s: State, steps: seq<Step>)
    decreases steps
  {
    Converged(s) &&
    (steps == [] || (Enabled(s, steps[0]) && ConvergedThroughout(Take(s, steps[0]), steps[1..])))
  }

  /** A run stays converged at every point exactly when every step of it is safe. */
  lemma {:induction false} ConvergedThroughoutIff(s: State, steps: seq<Step>, s': State)
    requires Numbered(s) && Converged(s) && RunsTo(s, steps, s') && s'.next <= 0x1_0000_0000
    ensures ConvergedThroughout(s, steps) <==> SafeRun(s, steps)
    decreases steps
  {
    if steps != [] {
      NextOnlyGrows(s, steps, s');
      NumberedStep(s, steps[0]);
      StepConverges(s, steps[0]);
      hide Safe, Take, Enabled, Numbered;
      var t := Take(s, steps[0]);
      if Converged(t) {
        ConvergedThroughoutIff(t, steps[1..], s');
      } else {
        assert !ConvergedThroughout(t, steps[1..]);
      }
    }
  }

  lemma EmptyIsConverged()
    ensures Numbered(EMPTY) && Converged(EMPTY)
  {
  }

  /** In a converged state a client never takes another entity for its own, however few of its
      announcements it has heard. */
  lemma {:induction false} OwnIdIsNeverForeign(s: State, c: nat)
    requires Converged(s) && c in s.members
    ensures s.members[c].world.own.Unknown? || s.members[c].world.own == Mine(EntityId(c))
  {
    OwnIsKept(s.members[c].world, s.members[c].pending);
  }

  lemma {:induction false} OwnIsKept(k: Known, pending: seq<Message>)
    ensures k.own.Mine? ==> Replay(k, pending).own == k.own
  {
    if pending != [] {
      OwnIsKept(k, pending[..|pending| - 1]);
    }
  }

  // ----- what goes wrong otherwise -----

  /** Whoever registers while another client is accepted but unregistered becomes that client's
      own entity in its eyes, for good. */
  lemma {:induction false} UnregisteredClientIsMisled(s: State, c: nat, order: seq<nat>, u: nat, more: seq<Message>)
    requires Converged(s) && Enabled(s, Register(c, 1, order))
    requires u in s.members && u != c && !s.members[u].registered
    ensures Replay(Shown(Registered(s, c, order).members[u]), more).own == Mine(EntityId(c))
  {
    ShownAfter(s.members[u], [SpawnOf(EntityId(c))]);
    ReplayOne(Shown(s.members[u]), SpawnOf(EntityId(c)));
    OwnIsKept(Shown(Registered(s, c, order).members[u]), more);
  }

  /** A newcomer is also told of sessions that have not registered. If such a session then
      leaves, nobody is sent a Despawn for it, so the newcomer keeps showing it. */
  lemma {:induction false} UnregisteredSessionLingers(s: State, c: nat, order: seq<nat>, u: nat)
    requires Enabled(s, Register(c, 1, order))
    requires u in s.members && u != c && !s.members[u].registered
    ensures var s' := Left(Registered(s, c, order), u);
            u !in s'.members && c in s'.members && EntityId(u) in Shown(s'.members[c]).ids
  {
    hide EntityId, Spawns;
    var s1 := Registered(s, c, order);
    var e, before := EntityId(c), Shown(s.members[c]);
    ShownAfter(s.members[c].(registered := true), [SpawnOf(e)] + Spawns(order, c));
    ReplayAppend(before, [SpawnOf(e)], Spawns(order, c));
    ReplayOne(before, SpawnOf(e));
    ReplaySpawns(HearId(before, SpawnOf(e)), order, c);
    assert EntityId(u) in Shown(s1.members[c]).ids;
    assert Left(s1, u).members[c] == s1.members[c];
  }

  /** A dead entity: no session of the table has this id, and no later one will. */
  ghost predicate Dead(s: State, id: nat) {
    id < s.next && id !in s.members
  }

  /** A dead entity shown to a client, with no Despawn for it on the way, stays shown. */
  lemma {:induction false} GhostStays(s: State, c: nat, id: nat, steps: seq<Step>, s': State)
    requires Numbered(s) && c in s.members && Dead(s, id)
    requires DespawnOf(id) !in s.members[c].pending && id in s.members[c].world.ids
    requires RunsTo(s, steps, s') && s'.next <= 0x1_0000_0000
    requires c in s'.members
    ensures id in Shown(s'.members[c]).ids
    decreases steps
  {
    if steps == [] {
      StaysShown(s.members[c].world, s.members[c].pending, id);
    } else {
      NextOnlyGrows(s, steps, s');
      NumberedStep(s, steps[0]);
      var t := Take(s, steps[0]);
      if c in t.members {
        GhostStep(s, c, id, steps[0]);
        GhostStays(t, c, id, steps[1..], s');
      } else {
        GoneForGood(t, steps[1..], s', c);
      }
    }
  }

  /** A state update that arrives after the Despawn brings a dead entity back, and nothing the
      server ever sends this client will remove it. */
  lemma {:induction false} LateUpdateRaisesGhost(s: State, c: nat, id: nat, steps: seq<Step>, s': State)
    requires Numbered(s) && c in s.members && Dead(s, id) && DespawnOf(id) !in s.members[c].pending
    requires RunsTo(Take(s, Update(c, id)), steps, s') && s'.next <= 0x1_0000_0000 && c in s'.members
    ensures id in Shown(s'.members[c]).ids
  {
    NumberedStep(s, Update(c, id));
    GhostStays(Take(s, Update(c, id)), c, id, steps, s');
  }

  lemma {:induction false} StaysShown(k: Known, pending: seq<Message>, id: nat)
    requires id in k.ids && DespawnOf(id) !in pending
    ensures id in Replay(k, pending).ids
  {
    if pending != [] {
      StaysShown(k, pending[..|pending| - 1], id);
    }
  }

  lemma {:induction false} NoDespawnInSpawns(order: seq<nat>, except: nat, id: nat)
    ensures DespawnOf(id) !in Spawns(order, except)
    decreases order
  {
    if order != [] {
      NoDespawnInSpawns(order[1..], except, id);
    }
  }

  lemma GhostStep(s: State, c: nat, id: nat, step: Step)
    requires Numbered(s) && c in s.members && Dead(s, id) && Enabled(s, step)
    requires DespawnOf(id) !in s.members[c].pending && id in s.members[c].world.ids
    requires c in Take(s, step).members
    ensures var t := Take(s, step);
            Dead(t, id) && DespawnOf(id) !in t.members[c].pending && id in t.members[c].world.ids
  {
    match step
    case Register(r, port, order) => NoDespawnInSpawns(order, c, id);
    case Leave(l) => SmallId(l);
    case Deliver(d) =>
      var q := s.members[d].pending;
      assert q == [q[0]] + q[1..];
    case _ =>
  }

  lemma {:induction false} GoneForGood(s: State, steps: seq<Step>, s': State, c: nat)
    requires c !in s.members && c < s.next && RunsTo(s, steps, s')
    ensures c !in s'.members
    decreases steps
  {
    if steps != [] {
      GoneForGood(Take(s, steps[0]), steps[1..], s', c);
    }
  }

  // ----- such runs exist -----

  lemma RunCons(s: State, step: Step, rest: seq<Step>, s': State)
    requires Enabled(s, step) && RunsTo(Take(s, step), rest, s')
    ensures RunsTo(s, [step] + rest, s')
  {
    hide Take, Enabled;
    assert ([step] + rest)[0] == step && ([step] + rest)[1..] == rest;
  }

  /** Two clients connect and the first registers: the second takes itself for the first. */
  lemma MisledRun() returns (steps: seq<Step>, s: State)
    ensures RunsTo(EMPTY, steps, s) && s.next <= 0x1_0000_0000
    ensures 2 in s.members && Shown(s.members[2]).own == Mine(1)
  {
    var a := Take(EMPTY, Accept);
    var b := Take(a, Accept);
    var register := Register(1, 1, [1, 2]);
    assert Enabled(b, register);
    s := Take(b, register);
    RunCons(b, register, [], s);
    RunCons(a, Accept, [register] + [], s);
    RunCons(EMPTY, Accept, [Accept] + ([register] + []), s);
    steps := [Accept] + ([Accept] + ([register] + []));
    SmallId(1);
    OthersHearNewcomer(b, 1, [1, 2], 2);
    assert Shown(b.members[2]) == NOTHING;
  }

  /** Both register in turn, the first leaves, the second hears everything, and then a belated
      state update of the first arrives: a ghost. */
  lemma GhostRun() returns (steps: seq<Step>, s: State)
    ensures RunsTo(EMPTY, steps, s) && s.next <= 0x1_0000_0000
    ensures 2 in s.members && 1 !in s.members && s.members[2].pending == [] && 1 in s.members[2].world.ids
  {
    var q := BothRegistered();
    var r := Take(q, Leave(1));
    var d := Deliver(2);
    assert r.members[2].pending == [SpawnOf(2), SpawnOf(1), DespawnOf(1)];
    var t1 := Take(r, d);
    assert t1.members[2].pending == [SpawnOf(1), DespawnOf(1)];
    var t2 := Take(t1, d);
    assert t2.members[2].pending == [DespawnOf(1)];
    var t3 := Take(t2, d);
    assert t3.members[2].pending == [];
    s := Take(t3, Update(2, 1));
    steps := [Update(2, 1)] + [];
    RunCons(t3, Update(2, 1), [], s);
    RunCons(t2, d, steps, s);
    steps := [d] + steps;
    RunCons(t1, d, steps, s);
    steps := [d] + steps;
    RunCons(r, d, steps, s);
    steps := [d] + steps;
    RunCons(q, Leave(1), steps, s);
    steps := FromEmpty(q, [Leave(1)] + steps, s);
  }

  /** The state after two clients have connected and registered one after the other. */
  lemma BothRegistered() returns (q: State)
    ensures q.members.Keys == {1, 2} && q.next == 3
    ensures q.members[1].registered && q.members[2] == Member(true, NOTHING, [SpawnOf(2), SpawnOf(1)])
    ensures q == AfterBoth()
  {
    q := AfterBoth();
    SmallId(1);
    SmallId(2);
    assert Spawns([1, 2], 2) == [SpawnOf(1)] by {
      assert [1, 2][1..] == [2] && [2][1..] == [];
      assert Spawns([2], 2) == [];
    }
  }

  ghost function AfterBoth(): State {
    var a := Take(EMPTY, Accept);
    var b := Registered(a, 1, [1]);
    var c := Take(b, Accept);
    Registered(c, 2, [1, 2])
  }

  lemma FromEmpty(q: State, rest: seq<Step>, s: State) returns (steps: seq<Step>)
    requires q == AfterBoth() && RunsTo(q, rest, s)
    ensures RunsTo(EMPTY, steps, s)
  {
    hide RunsTo;
    var a := Take(EMPTY, Accept);
    var first, second := Register(1, 1, [1]), Register(2, 1, [1, 2]);
    assert Enabled(a, first);
    var b := Take(a, first);
    var c := Take(b, Accept);
    assert Enabled(c, second);
    assert Take(c, second) == q;
    RunCons(c, second, rest, s);
    RunCons(b, Accept, [second] + rest, s);
    RunCons(a, first, [Accept] + ([second] + rest), s);
    RunCons(EMPTY, Accept, [first] + ([Accept] + ([second] + rest)), s);
    steps := [Accept] + ([first] + ([Accept] + ([second] + rest)));
  }
}
