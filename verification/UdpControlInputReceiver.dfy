/** The server's reader of steering datagrams (Server/UdpControlInputReceiver.cpp). */
module ControlInputReceiver {
  import opened ByteOrder
  import opened BinarySerializer
  import opened Protocol
  import opened Sessions
  import opened SessionRuns
  import opened SessionTable
  import opened UdpStreaming
  import opened ControlInputs

  /** A datagram as recvfrom hands it over. */
  datatype Arrival = Arrival(bytes: seq<byte>, ip: string, port: u16)

  /** The receive buffer; a longer datagram makes recvfrom fail. */
  const INPUT_BUFFER_SIZE: nat := 64

  function TakeInput(bytes: seq<byte>): Parse<EntityControlInput> {
    if |bytes| > INPUT_BUFFER_SIZE then Short else
    var (kind, payload) :- Take8(bytes);
    if kind == ENTITY_CONTROL_INPUT then TakeEntityControlInput(payload) else Short
  }

  /** The datagram a client sends. */
  function InputDatagram(p: EntityControlInput): seq<byte> {
    Put8(ENTITY_CONTROL_INPUT, PutEntityControlInput(p, []))
  }

  lemma InputDatagramRoundTrip(p: EntityControlInput)
    ensures TakeInput(InputDatagram(p)) == Parsed(p, [])
  {
    hide TakeEntityControlInput, PutEntityControlInput;
    TakePutEntityControlInput(p, []);
    TakePut8(ENTITY_CONTROL_INPUT, PutEntityControlInput(p, []));
  }

  /** A client's datagram for its own entity, arriving from its registered endpoint, is exactly
      the input the client sent. */
  lemma OwnDatagramIsInput(id: nat, number: nat, throttle: bv32, yaw: bv32, ip: string, port: u16, value: bv32 -> real)
    requires id < TWO_TO_32 && number < TWO_TO_32 && ip != "" && port != 0
    ensures var p := EntityControlInput(EntityId(id), Word32(number), throttle, yaw);
            InputsIn(Arrival(InputDatagram(p), ip, port), id, ip, port, value) ==
            [Input(number, value(throttle), value(yaw))]
  {
    hide TakeInput, InputDatagram, Word32, Value32;
    WordValue32(id, 0);
    WordValue32(number, 0);
    InputDatagramRoundTrip(EntityControlInput(EntityId(id), Word32(number), throttle, yaw));
  }

  /** The input, if any, that a datagram is for the session with this id and endpoint. */
  function InputsIn(a: Arrival, id: nat, ip: string, port: u16, value: bv32 -> real): seq<Op> {
    match TakeInput(a.bytes)
    case Short => []
    case Parsed(p, _) =>
      if Value32(p.entityId) == id && ip != "" && port != 0 && a.ip == ip && a.port == port
      then [Input(Value32(p.sequenceId), value(p.throttle), value(p.yaw))]
      else []
  }

  /** A datagram from anywhere else, for anyone else, to a session without an endpoint, or too long
      or too short or of another kind, holds no input for the session. */
  lemma ForeignDatagramIsNothing(a: Arrival, id: nat, ip: string, port: u16, value: bv32 -> real)
    requires a.ip != ip || a.port != port || ip == "" || port == 0 || |a.bytes| > 64 || |a.bytes| < 17 ||
             a.bytes[0] != 6 || Value32(FromBigEndian32(a.bytes[1..5])) != id
    ensures InputsIn(a, id, ip, port, value) == []
  {
    hide Value32, FromBigEndian32;
    if |a.bytes| >= 1 {
      TakeEntityControlInputShortIff(a.bytes[1..]);
      assert |a.bytes| >= 17 ==> a.bytes[1..][..4] == a.bytes[1..5];
    }
  }

  /** Everything that came from one endpoint, in order. */
  function From(arrivals: seq<Arrival>, ip: string, port: u16): seq<Arrival> {
    if arrivals == [] then []
    else
      var a, before := arrivals[|arrivals| - 1], From(arrivals[..|arrivals| - 1], ip, port);
      if a.ip == ip && a.port == port then before + [a] else before
  }

  /** Datagrams from other senders might as well never have arrived. */
  lemma {:induction false} OthersMightAsWellBeSilent(arrivals: seq<Arrival>, id: nat, ip: string, port: u16,
                                                     value: bv32 -> real)
    ensures AllInputs(arrivals, id, ip, port, value) == AllInputs(From(arrivals, ip, port), id, ip, port, value)
  {
    hide InputsIn;
    if arrivals != [] {
      var p, a := arrivals[..|arrivals| - 1], arrivals[|arrivals| - 1];
      OthersMightAsWellBeSilent(p, id, ip, port, value);
      if a.ip == ip && a.port == port {
        assert (From(p, ip, port) + [a])[..|From(p, ip, port)|] == From(p, ip, port);
      } else {
        ForeignDatagramIsNothing(a, id, ip, port, value);
      }
    }
  }

  /** The inputs for one session among everything that arrived. */
  function AllInputs(arrivals: seq<Arrival>, id: nat, ip: string, port: u16, value: bv32 -> real): seq<Op> {
    if arrivals == [] then []
    else
      AllInputs(arrivals[..|arrivals| - 1], id, ip, port, value) +
      InputsIn(arrivals[|arrivals| - 1], id, ip, port, value)
  }

  lemma {:induction false} AllInputsAreInputs(arrivals: seq<Arrival>, id: nat, ip: string, port: u16, value: bv32 -> real)
    ensures forall op :: op in AllInputs(arrivals, id, ip, port, value) ==> op.Input?
  {
    hide InputsIn, TakeInput;
    if arrivals != [] {
      AllInputsAreInputs(arrivals[..|arrivals| - 1], id, ip, port, value);
      OneInput(arrivals[|arrivals| - 1], id, ip, port, value);
    }
  }

  lemma OneInput(a: Arrival, id: nat, ip: string, port: u16, value: bv32 -> real)
    ensures forall op :: op in InputsIn(a, id, ip, port, value) ==> op.Input?
  {
  }

  /** What one session becomes when a datagram has been routed. */
  ghost function Routed(s: Session, a: Arrival, id: nat, ip: string, value: bv32 -> real, trig: Trig): Session {
    Run(s, InputsIn(a, id, ip, s.udpPort, value), trig)
  }

  method ParseInput(bytes: seq<byte>) returns (ok: bool, p: EntityControlInput)
    ensures ok <==> TakeInput(bytes).Parsed?
    ensures ok ==> TakeInput(bytes).value == p
  {
    hide TakeEntityControlInput;
    p := EntityControlInput(0, 0, 0, 0);
    if |bytes| > INPUT_BUFFER_SIZE {
      return false, p;
    }
    var reader := new BinaryReader(bytes, true);
    var kind;
    ok, kind := reader.TryReadUInt8();
    if !ok { return; }
    if kind != ENTITY_CONTROL_INPUT {
      return false, p;
    }
    ok, p := TryDeserializeEntityControlInput(reader);
  }

  function Delivered(s: Session, ip: string, a: Arrival, p: EntityControlInput, value: bv32 -> real): Session {
    if ip != "" && s.udpPort != 0 && a.ip == ip && a.port == s.udpPort
    then s.(body := ApplyInput(s.body, Value32(p.sequenceId), value(p.throttle), value(p.yaw)))
    else s
  }

  lemma RoutedInput(s: Session, a: Arrival, id: nat, ip: string, value: bv32 -> real, trig: Trig)
    requires TakeInput(a.bytes).Parsed?
    ensures var p := TakeInput(a.bytes).value;
            Routed(s, a, id, ip, value, trig) ==
            if Value32(p.entityId) == id then Delivered(s, ip, a, p, value) else s
  {
    hide TakeInput, ApplyInput;
    var ops := InputsIn(a, id, ip, s.udpPort, value);
    if ops != [] {
      assert ops[..0] == [];
      assert Run(s, ops[..0], trig) == s;
      assert Run(s, ops, trig) == Perform(s, ops[0], trig);
    }
  }

  lemma RoutedNowhere(s: Session, a: Arrival, id: nat, ip: string, value: bv32 -> real, trig: Trig)
    requires TakeInput(a.bytes).Short?
    ensures Routed(s, a, id, ip, value, trig) == s
  {
    hide TakeInput;
  }

  lemma ForeignChangesNothing(s: Session, a: Arrival, id: nat, ip: string, value: bv32 -> real, trig: Trig)
    ensures a.ip != ip || a.port != s.udpPort ==> Routed(s, a, id, ip, value, trig) == s
  {
    hide InputsIn;
    if a.ip != ip || a.port != s.udpPort {
      ForeignDatagramIsNothing(a, id, ip, s.udpPort, value);
    }
  }

  /** The endpoint check and the input itself. */
  method Deliver(session: ClientSession, a: Arrival, p: EntityControlInput, value: bv32 -> real)
    modifies session`throttle, session`yaw, session`lastAppliedControlInputSequenceId
    ensures session.View() == Delivered(old(session.View()), session.udpIpAddress, a, p, value)
    ensures a.ip != session.udpIpAddress || a.port != session.udpPort || session.udpIpAddress == "" || session.udpPort == 0 ==>
              session.View() == old(session.View())
  {
    hide ApplyInput;
    if !session.HasUdpEndpoint() || session.udpIpAddress != a.ip || session.udpPort != a.port {
      return;
    }
    session.ApplyControlInput(Value32(p.sequenceId), value(p.throttle), value(p.yaw));
  }

  /** One turn of the receive loop: the session named in the datagram takes the input if the
      datagram came from that session's registered endpoint; nothing else changes. */
  method Route(manager: SessionManager, a: Arrival, value: bv32 -> real, ghost trig: Trig)
    requires manager.Valid()
    modifies manager.sessions.Values
    ensures manager.Valid()
    ensures forall id :: id in manager.sessions ==>
              var s := manager.sessions[id];
              && s.udpIpAddress == old(s.udpIpAddress)
              && s.View() == Routed(old(s.View()), a, id, old(s.udpIpAddress), value, trig)
    ensures forall id :: id in manager.sessions ==>
              var s := manager.sessions[id];
              a.ip != old(s.udpIpAddress) || a.port != old(s.udpPort) ==> s.View() == old(s.View())
  {
    hide TakeInput, ApplyInput, InputsIn;
    forall id | id in manager.sessions
      ensures var s := manager.sessions[id];
              a.ip != s.udpIpAddress || a.port != s.udpPort ==>
                Routed(s.View(), a, id, s.udpIpAddress, value, trig) == s.View()
    {
      var s := manager.sessions[id];
      ForeignChangesNothing(s.View(), a, id, s.udpIpAddress, value, trig);
    }
    var ok, p := ParseInput(a.bytes);
    if !ok {
      forall id | id in manager.sessions
        ensures var s := manager.sessions[id]; Routed(s.View(), a, id, s.udpIpAddress, value, trig) == s.View()
      {
        var s := manager.sessions[id];
        RoutedNowhere(s.View(), a, id, s.udpIpAddress, value, trig);
      }
      return;
    }
    forall id | id in manager.sessions
      ensures var s := manager.sessions[id];
              Routed(s.View(), a, id, s.udpIpAddress, value, trig) ==
              if Value32(p.entityId) == id then Delivered(s.View(), s.udpIpAddress, a, p, value) else s.View()
    {
      var s := manager.sessions[id];
      RoutedInput(s.View(), a, id, s.udpIpAddress, value, trig);
    }
    hide Routed, Delivered;
    var session := manager.GetSession(Value32(p.entityId));
    if session == null { return; }
    assert session in manager.sessions.Values;
    Deliver(session, a, p, value);
  }

  lemma RunOneMore(s: Session, arrivals: seq<Arrival>, k: nat, id: nat, ip: string, value: bv32 -> real, trig: Trig)
    requires k < |arrivals|
    ensures Run(s, AllInputs(arrivals[..k + 1], id, ip, s.udpPort, value), trig) ==
            Run(Run(s, AllInputs(arrivals[..k], id, ip, s.udpPort, value), trig),
                InputsIn(arrivals[k], id, ip, s.udpPort, value), trig)
  {
    hide InputsIn, Run;
    assert arrivals[..k + 1][..k] == arrivals[..k];
    RunAppend(s, AllInputs(arrivals[..k], id, ip, s.udpPort, value), InputsIn(arrivals[k], id, ip, s.udpPort, value), trig);
  }

  lemma {:induction false} InputsKeepPort(s: Session, ops: seq<Op>, trig: Trig)
    requires forall op :: op in ops ==> op.Input?
    ensures Run(s, ops, trig).udpPort == s.udpPort
  {
    hide ApplyInput;
    if ops != [] {
      InputsKeepPort(s, ops[..|ops| - 1], trig);
    }
  }

  /** The receive loop: every session ends as if only the inputs addressed to it, from its own
      endpoint, had been applied in their order of arrival. */
  method ReceiveWorker(manager: SessionManager, arrivals: seq<Arrival>, value: bv32 -> real, ghost trig: Trig)
    requires manager.Valid()
    modifies manager.sessions.Values
    ensures manager.Valid()
    ensures forall id :: id in manager.sessions ==>
              var s := manager.sessions[id];
              s.View() == Run(old(s.View()), AllInputs(arrivals, id, s.udpIpAddress, old(s.udpPort), value), trig)
    ensures forall id :: id in manager.sessions ==>
              var s := manager.sessions[id];
              From(arrivals, s.udpIpAddress, old(s.udpPort)) == [] ==> s.View() == old(s.View())
  {
    hide InputsIn, Run, AllInputs, TakeInput;
    forall id | id in manager.sessions
      ensures var s := manager.sessions[id];
              s.View() == Run(s.View(), AllInputs(arrivals[..0], id, s.udpIpAddress, s.udpPort, value), trig)
    {
      var s := manager.sessions[id];
      NoArrivals(s.View(), arrivals, id, s.udpIpAddress, value, trig);
    }
    for k := 0 to |arrivals|
      invariant manager.Valid()
      invariant forall id :: id in manager.sessions ==>
                  var s := manager.sessions[id];
                  && s.udpIpAddress == old(s.udpIpAddress)
                  && s.View() == Run(old(s.View()), AllInputs(arrivals[..k], id, s.udpIpAddress, old(s.udpPort), value), trig)
    {
      forall id | id in manager.sessions
        ensures var s := manager.sessions[id];
                && s.udpPort == old(s.udpPort)
                && Routed(s.View(), arrivals[k], id, s.udpIpAddress, value, trig) ==
                   Run(old(s.View()), AllInputs(arrivals[..k + 1], id, s.udpIpAddress, old(s.udpPort), value), trig)
      {
        var s := manager.sessions[id];
        var before := AllInputs(arrivals[..k], id, s.udpIpAddress, old(s.udpPort), value);
        AllInputsAreInputs(arrivals[..k], id, s.udpIpAddress, old(s.udpPort), value);
        InputsKeepPort(old(s.View()), before, trig);
        RunOneMore(old(s.View()), arrivals, k, id, s.udpIpAddress, value, trig);
      }
      Route(manager, arrivals[k], value, trig);
    }
    assert arrivals[..|arrivals|] == arrivals;
    forall id | id in manager.sessions
      ensures var s := manager.sessions[id];
              From(arrivals, s.udpIpAddress, old(s.udpPort)) == [] ==> s.View() == old(s.View())
    {
      var s := manager.sessions[id];
      OthersMightAsWellBeSilent(arrivals, id, s.udpIpAddress, old(s.udpPort), value);
      NoArrivals(old(s.View()), [], id, s.udpIpAddress, value, trig);
    }
  }

  lemma NoArrivals(s: Session, arrivals: seq<Arrival>, id: nat, ip: string, value: bv32 -> real, trig: Trig)
    ensures s == Run(s, AllInputs(arrivals[..0], id, ip, s.udpPort, value), trig)
  {
  }

  /** Whatever arrives, in whatever order and however often, the session ends under the newest
      input that came from its own endpoint with its own id. Copies of an input agree, because
      a client never reuses a number (fewer than 2^32 inputs). */
  lemma {:induction false} NewestOwnInputWins(s: Session, arrivals: seq<Arrival>, id: nat, ip: string, value: bv32 -> real, trig: Trig)
    requires var ops := AllInputs(arrivals, id, ip, s.udpPort, value); Consistent(ops)
    ensures var ops := AllInputs(arrivals, id, ip, s.udpPort, value);
            var b := Run(s, ops, trig).body;
            if MaxId(ops) <= s.body.lastInput
            then b.throttle == s.body.throttle && b.yaw == s.body.yaw
            else forall k :: 0 <= k < |ops| && ops[k].Input? && ops[k].id == MaxId(ops) ==> Obeys(b, ops[k])
  {
    hide AllInputs, Run;
    var ops := AllInputs(arrivals, id, ip, s.udpPort, value);
    AllInputsAreInputs(arrivals, id, ip, s.udpPort, value);
    assert forall i :: 0 <= i < |ops| ==> ops[i] in ops;
    HighestInputWins(s, ops, trig);
  }
}
