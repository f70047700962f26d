/** The server's streaming loop (Server/UdpStreamingService.cpp): physics catch-up, one
    serialisation per tick, the per-recipient patch and the 30/60 Hz division. */
module UdpStreaming {
  import opened ByteOrder
  import opened BinarySerializer
  import opened Protocol
  import opened Streaming
  import opened Sessions
  import opened SessionRuns

  datatype Datagram = Datagram(ip: string, port: u16, bytes: seq<byte>)

  /** What the loop reads of a session. */
  datatype Client = Client(id: nat, ip: string, session: Session)

  function ClientOf(s: ClientSession): Client
    reads s
  {
    Client(s.sessionId, s.udpIpAddress, s.View())
  }

  function WireId(n: nat): bv64 {
    Word64(n % TWO_TO_64)
  }

  /** static_cast<uint32_t> of the session id. */
  function EntityId(sessionId: nat): bv32 {
    Word32(sessionId % TWO_TO_32)
  }

  // ----- one wake-up of the worker, on values -----

  ghost function StepN(b: Body, n: nat, trig: Trig): Body {
    if n == 0 then b else Step(StepN(b, n - 1, trig), DT, trig)
  }

  ghost function Stepped(c: Client, elapsed: nat, trig: Trig): Client {
    if c.session.state == Playing then c.(session := c.session.(body := StepN(c.session.body, elapsed, trig))) else c
  }

  function EntryOf(c: Client, bits: real -> bv32): EntityStateEntry {
    var b := c.session.body;
    EntityStateEntry(EntityId(c.id), bits(b.positionX), bits(b.positionY), bits(b.heading),
                     bits(b.velocityX), bits(b.velocityY))
  }

  /** The playing entities, in the order of the snapshot. */
  ghost function Entries(cs: seq<Client>, bits: real -> bv32): seq<EntityStateEntry> {
    if cs == [] then []
    else
      var c := cs[|cs| - 1];
      Entries(cs[..|cs| - 1], bits) + if c.session.state == Playing then [EntryOf(c, bits)] else []
  }

  /** Who gets a datagram this tick: a 30 Hz recipient only on even ticks. */
  predicate Due(c: Client, tick: nat) {
    && c.session.state == Playing
    && !(c.session.rate == Hz30 && tick % 2 != 0)
    && c.ip != "" && c.session.udpPort != 0
  }

  function AfterSend(c: Client, tick: nat): Client {
    if Due(c, tick) then c.(session := c.session.(nextSequenceId := c.session.nextSequenceId + 1)) else c
  }

  /** The datagram a recipient would get from a serialisation of its own. */
  function OwnDatagram(c: Client, batch: EntityStateBatch): Datagram {
    Datagram(c.ip, c.session.udpPort,
             StateDatagram(batch.(sequenceId := WireId(c.session.nextSequenceId + 1))))
  }

  ghost function Datagrams(cs: seq<Client>, tick: nat, batch: EntityStateBatch): seq<Datagram> {
    if cs == [] then []
    else
      var c := cs[|cs| - 1];
      Datagrams(cs[..|cs| - 1], tick, batch) + if Due(c, tick) then [OwnDatagram(c, batch)] else []
  }

  /** The recipients due on a tick, in the order of the snapshot. */
  ghost function DueAmong(cs: seq<Client>, tick: nat): seq<Client> {
    if cs == [] then []
    else DueAmong(cs[..|cs| - 1], tick) + if Due(cs[|cs| - 1], tick) then [cs[|cs| - 1]] else []
  }

  /** The datagrams of a tick are the due recipients' own, one each and in that order. */
  lemma {:induction false} DatagramsAreTheDue(cs: seq<Client>, tick: nat, batch: EntityStateBatch)
    ensures var due, sent := DueAmong(cs, tick), Datagrams(cs, tick, batch);
            |sent| == |due| && forall i :: 0 <= i < |sent| ==> sent[i] == OwnDatagram(due[i], batch)
    ensures forall c :: c in DueAmong(cs, tick) <==> c in cs && Due(c, tick)
  {
    hide Due, OwnDatagram;
    if cs != [] {
      var p, last := cs[..|cs| - 1], cs[|cs| - 1];
      DatagramsAreTheDue(p, tick, batch);
      assert cs == p + [last];
    }
  }

  lemma {:induction false} NobodyPlaying(cs: seq<Client>, tick: nat, batch: EntityStateBatch, bits: real -> bv32)
    requires Entries(cs, bits) == []
    ensures Datagrams(cs, tick, batch) == []
    ensures forall i :: 0 <= i < |cs| ==> AfterSend(cs[i], tick) == cs[i]
  {
    if cs != [] {
      NobodyPlaying(cs[..|cs| - 1], tick, batch, bits);
      forall i | 0 <= i < |cs|
        ensures AfterSend(cs[i], tick) == cs[i]
      {
        if i < |cs| - 1 {
          assert cs[..|cs| - 1][i] == cs[i];
        }
      }
    }
  }

  // ----- the worker's steps, on session objects -----

  ghost predicate Distinct(sessions: seq<ClientSession>) {
    forall i, j :: 0 <= i < j < |sessions| ==> sessions[i] != sessions[j]
  }

  ghost predicate Shows(sessions: seq<ClientSession>, cs: seq<Client>)
    reads sessions
  {
    |sessions| == |cs| && forall i :: 0 <= i < |cs| ==> ClientOf(sessions[i]) == cs[i]
  }

  /** Physics catch-up of one session. */
  method StepSession(session: ClientSession, elapsedTicks: nat, trig: Trig)
    modifies session
    ensures ClientOf(session) == Stepped(old(ClientOf(session)), elapsedTicks, trig)
  {
    hide Step;
    if session.state == Playing {
      ghost var before := ClientOf(session);
      for i := 0 to elapsedTicks
        invariant ClientOf(session) == Stepped(before, i, trig)
      {
        StepOnce(session, trig);
      }
    }
  }

  method StepOnce(session: ClientSession, trig: Trig)
    modifies session
    ensures ClientOf(session) ==
            var c := old(ClientOf(session)); c.(session := c.session.(body := Step(c.session.body, DT, trig)))
  {
    hide Step;
    session.StepPhysics(DT, trig);
  }

  method StepAll(sessions: seq<ClientSession>, elapsedTicks: nat, trig: Trig, ghost before: seq<Client>)
    requires Distinct(sessions) && Shows(sessions, before)
    modifies sessions
    ensures forall i :: 0 <= i < |sessions| ==> ClientOf(sessions[i]) == Stepped(before[i], elapsedTicks, trig)
  {
    hide StepN;
    for k := 0 to |sessions|
      invariant forall i :: 0 <= i < k ==> ClientOf(sessions[i]) == Stepped(before[i], elapsedTicks, trig)
      invariant forall i :: k <= i < |sessions| ==> ClientOf(sessions[i]) == before[i]
    {
      StepSession(sessions[k], elapsedTicks, trig);
    }
  }

  method CollectEntries(sessions: seq<ClientSession>, bits: real -> bv32, ghost cs: seq<Client>)
    returns (entries: seq<EntityStateEntry>)
    requires Shows(sessions, cs)
    ensures entries == Entries(cs, bits)
  {
    entries := [];
    for k := 0 to |sessions|
      invariant entries == Entries(cs[..k], bits)
    {
      assert cs[..k + 1][..k] == cs[..k];
      assert ClientOf(sessions[k]) == cs[k];
      if sessions[k].state == Playing {
        entries := entries + [EntryOf(ClientOf(sessions[k]), bits)];
      }
    }
    assert cs[..|sessions|] == cs;
  }

  /** One turn of the sending loop: a due recipient gets a number and the patched packet. */
  method SendTo(recipient: ClientSession, tick: nat, packet: array<byte>, batch: EntityStateBatch,
                ghost from: bv64, ghost c: Client)
    returns (sent: seq<Datagram>, ghost to: bv64)
    requires ClientOf(recipient) == c && packet[..] == StateDatagram(batch.(sequenceId := from))
    modifies packet, recipient`nextSequenceId
    ensures packet[..] == StateDatagram(batch.(sequenceId := to))
    ensures sent == if Due(c, tick) then [OwnDatagram(c, batch)] else []
    ensures ClientOf(recipient) == AfterSend(c, tick)
  {
    hide StateDatagram, WireId, Patched;
    sent, to := [], from;
    if Due(ClientOf(recipient), tick) {
      var id := recipient.GetNextSequenceId();
      to := WireId(id);
      PatchIsReserialise(batch.(sequenceId := from), to);
      PatchEntityStateSequenceId(packet, WireId(id), true);
      sent := [Datagram(recipient.udpIpAddress, recipient.udpPort, packet[..])];
    }
  }

  /** The sending loop: one packet buffer, patched for each recipient in turn. Every datagram
      that leaves is the one the recipient's own serialisation would have been. */
  method SendToAll(sessions: seq<ClientSession>, tick: nat, packet: array<byte>,
                   batch: EntityStateBatch, ghost cs: seq<Client>)
    returns (sent: seq<Datagram>)
    requires Distinct(sessions) && Shows(sessions, cs)
    requires packet[..] == StateDatagram(batch)
    modifies packet, sessions
    ensures sent == Datagrams(cs, tick, batch)
    ensures forall i :: 0 <= i < |sessions| ==> ClientOf(sessions[i]) == AfterSend(cs[i], tick)
  {
    hide StateDatagram, WireId, Due, OwnDatagram, AfterSend, ClientOf;
    sent := [];
    ghost var current := batch.sequenceId;
    for k := 0 to |sessions|
      invariant packet[..] == StateDatagram(batch.(sequenceId := current))
      invariant sent == Datagrams(cs[..k], tick, batch)
      invariant forall i :: 0 <= i < k ==> ClientOf(sessions[i]) == AfterSend(cs[i], tick)
      invariant forall i :: k <= i < |sessions| ==> ClientOf(sessions[i]) == cs[i]
    {
      assert cs[..k + 1][..k] == cs[..k];
      var one;
      one, current := SendTo(sessions[k], tick, packet, batch, current, cs[k]);
      sent := sent + one;
    }
    assert cs[..|sessions|] == cs;
  }

  /** Serialises one tick's batch into a packet of its own. */
  method SerialisePacket(batch: EntityStateBatch) returns (packet: array<byte>)
    ensures fresh(packet) && packet[..] == StateDatagram(batch)
  {
    hide App8, AppEntityStateBatch, PutEntityStateBatch;
    var writer := new BinaryWriter(true);
    writer.WriteUInt8(ENTITY_STATE);
    SerializeEntityStateBatch(writer, batch);
    AppBatchIsPutBatch(App8([], ENTITY_STATE), batch, []);
    AppPut8([], ENTITY_STATE, PutEntityStateBatch(batch, []));
    ghost var image := writer.buffer;
    assert image + [] == image;
    assert [] + StateDatagram(batch) == StateDatagram(batch);
    var bytes := writer.buffer;
    packet := new byte[|bytes|](i requires 0 <= i < |bytes| => bytes[i]);
    assert packet[..] == bytes;
  }

  /** One wake-up: physics for the ticks that passed, then the datagrams of this tick. */
  method WakeUp(sessions: seq<ClientSession>, elapsedTicks: nat, tick: nat, timestamp: bv64,
                trig: Trig, bits: real -> bv32, ghost before: seq<Client>)
    returns (sent: seq<Datagram>, ghost moved: seq<Client>)
    requires Distinct(sessions) && Shows(sessions, before)
    modifies sessions
    ensures |moved| == |before| && forall i :: 0 <= i < |before| ==> moved[i] == Stepped(before[i], elapsedTicks, trig)
    ensures sent == Datagrams(moved, tick, EntityStateBatch(0, timestamp, Entries(moved, bits)))
    ensures forall i :: 0 <= i < |sessions| ==> ClientOf(sessions[i]) == AfterSend(moved[i], tick)
  {
    hide Stepped, Entries, Datagrams, AfterSend, StateDatagram;
    StepAll(sessions, elapsedTicks, trig, before);
    moved := seq(|before|, i requires 0 <= i < |before| => Stepped(before[i], elapsedTicks, trig));
    var entries := CollectEntries(sessions, bits, moved);
    var batch := EntityStateBatch(0, timestamp, entries);
    if entries == [] {
      NobodyPlaying(moved, tick, batch, bits);
      sent := [];
      return;
    }
    var packet := SerialisePacket(batch);
    sent := SendToAll(sessions, tick, packet, batch, moved);
  }
}
