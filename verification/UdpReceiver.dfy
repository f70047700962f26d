/** The client's UDP end (ClientCore/UdpReceiver.cpp): state datagrams in, steering datagrams
    out. The clock reading that goes with a call is a parameter. */
module ClientReceiver {
  import opened ByteOrder
  import opened BinarySerializer
  import opened Protocol
  import opened Streaming
  import opened Metrics
  import opened Worlds
  import opened ControlInputReceiver

  /** The receive buffer; a longer datagram makes recvfrom fail. */
  const STATE_BUFFER_SIZE: nat := 2048

  function TakeState(bytes: seq<byte>): Parse<EntityStateBatch> {
    var (kind, payload) :- Take8(bytes);
    if kind == ENTITY_STATE then TakeEntityStateBatch(payload) else Short
  }

  function SeeEntry(w: World, e: EntityStateEntry): World {
    See(w, e.entityId, e.positionX, e.positionY, e.heading, e.velocityX, e.velocityY)
  }

  function SeeAll(w: World, es: seq<EntityStateEntry>): World {
    if es == [] then w else SeeEntry(SeeAll(w, es[..|es| - 1]), es[|es| - 1])
  }

  /** What a client keeps of a connection: whether it believes itself playing, its statistics
      and its picture of the world. */
  datatype Client = Client(active: bool, collector: Collector, world: World)

  /** An active client counts every state batch and sees its entities; an inactive one, and one
      that gets anything else, is left as it was. */
  function Received(c: Client, bytes: seq<byte>, now: int): Client {
    if bytes == [] || |bytes| > STATE_BUFFER_SIZE || TakeState(bytes).Short? || !c.active then c
    else
      var batch := TakeState(bytes).value;
      Client(true, Apply(c.collector, Packet(Value64(batch.sequenceId), now)), SeeAll(c.world, batch.entities))
  }

  /** A server datagram reaches an active client whole up to 84 entities, and not at all beyond. */
  lemma BatchFitsUpTo84(c: Client, batch: EntityStateBatch, now: int)
    requires c.active
    ensures Received(c, StateDatagram(batch), now) ==
            if |batch.entities| <= 84
            then Client(true, Apply(c.collector, Packet(Value64(batch.sequenceId), now)), SeeAll(c.world, batch.entities))
            else c
  {
    hide Apply, SeeAll, TakeEntityStateBatch, PutEntityStateBatch;
    if |batch.entities| <= 84 {
      BatchRoundTrip(batch, []);
      TakePut8(ENTITY_STATE, PutEntityStateBatch(batch, []));
    }
  }

  class UdpReceiver {
    const entityWorld: EntityWorld
    const metricsCollector: MetricsCollector
    var isRunning: bool
    var isActive: bool
    /** A 32-bit counter. */
    var nextControlInputSequenceId: nat

    ghost predicate Valid()
      reads metricsCollector
    {
      metricsCollector.Valid()
    }

    function View(): Client
      reads this, metricsCollector, entityWorld
    {
      Client(isActive, metricsCollector.View(), entityWorld.View())
    }

    constructor (world: EntityWorld)
      ensures Valid() && entityWorld == world && fresh(metricsCollector)
      ensures View() == Client(false, Fresh(Hz30), world.View()) && !isRunning && nextControlInputSequenceId == 0
    {
      entityWorld := world;
      var collector := new MetricsCollector();
      metricsCollector := collector;
      isRunning, isActive, nextControlInputSequenceId := false, false, 0;
    }

    /** Starts over, inactive and with empty statistics, even when the socket then fails. The
        expected rate and the steering numbers carry on. */
    method Start(opens: bool) returns (ok: bool)
      modifies `isRunning, `isActive, metricsCollector
      ensures Valid() && ok == isRunning == opens
      ensures View() == Client(false, Fresh(old(metricsCollector.expectedDataRate)), old(entityWorld.View()))
    {
      Stop();
      isActive := false;
      metricsCollector.Reset();
      if !opens {
        return false;
      }
      isRunning := true;
      return true;
    }

    method Stop()
      modifies `isRunning
      ensures !isRunning
    {
      isRunning := false;
    }

    method ResetMetrics()
      modifies metricsCollector
      ensures Valid() && metricsCollector.View() == Fresh(old(metricsCollector.expectedDataRate))
    {
      metricsCollector.Reset();
    }

    method SetExpectedDataRate(rate: DataRate, ghost now: int)
      requires Valid()
      modifies metricsCollector
      ensures Valid() && metricsCollector.View() == Apply(old(metricsCollector.View()), SetRate(rate, now))
    {
      metricsCollector.SetExpectedDataRate(rate, now);
    }

    method OnPlay(now: int)
      requires Valid()
      modifies `isActive, metricsCollector
      ensures Valid() && isActive && metricsCollector.View() == Apply(old(metricsCollector.View()), Play(now))
    {
      isActive := true;
      metricsCollector.OnPlay(now);
    }

    method OnPause(now: int)
      requires Valid()
      modifies `isActive, metricsCollector
      ensures Valid() && !isActive && metricsCollector.View() == Apply(old(metricsCollector.View()), Pause(now))
    {
      isActive := false;
      metricsCollector.OnPause(now);
    }

    method OnStop()
      modifies `isActive
      ensures !isActive
    {
      isActive := false;
    }

    /** One turn of the receive loop. */
    method Receive(bytes: seq<byte>, now: int)
      requires Valid()
      modifies metricsCollector, entityWorld
      ensures Valid() && View() == Received(old(View()), bytes, now)
      ensures !isActive ==> View() == old(View())
    {
      hide TakeEntityStateBatch, Apply, SeeAll;
      if bytes == [] || |bytes| > STATE_BUFFER_SIZE {
        return;
      }
      var parsed, batch := ParseState(bytes);
      if !parsed || !isActive {
        return;
      }
      metricsCollector.OnPacketReceived(Value64(batch.sequenceId), now);
      SeeEntities(batch.entities);
    }

    method ParseState(bytes: seq<byte>) returns (ok: bool, batch: EntityStateBatch)
      ensures ok <==> TakeState(bytes).Parsed?
      ensures ok ==> TakeState(bytes).value == batch
    {
      hide TakeEntityStateBatch;
      batch := EntityStateBatch(0, 0, []);
      var reader := new BinaryReader(bytes, true);
      var kind;
      ok, kind := reader.TryReadUInt8();
      if !ok { return; }
      if kind != ENTITY_STATE {
        return false, batch;
      }
      ok, batch := TryDeserializeEntityStateBatch(reader);
    }

    method SeeEntities(entities: seq<EntityStateEntry>)
      modifies entityWorld
      ensures entityWorld.View() == SeeAll(old(entityWorld.View()), entities)
    {
      hide See;
      for i := 0 to |entities|
        invariant entityWorld.View() == SeeAll(old(entityWorld.View()), entities[..i])
      {
        assert entities[..i + 1][..i] == entities[..i];
        entityWorld.OnState(entities[i]);
      }
      assert entities[..|entities|] == entities;
    }

    /** A steering datagram with the next number; numbers start at 1 and wrap at 32 bits. The
        kernel takes `taken` bytes of it, negative for an error; the number is used up anyway. */
    method SendControlInput(entityId: bv32, throttle: bv32, yaw: bv32, taken: int) returns (ok: bool, datagram: seq<byte>)
      modifies `nextControlInputSequenceId
      ensures nextControlInputSequenceId == (old(nextControlInputSequenceId) + 1) % TWO_TO_32
      ensures datagram == InputDatagram(EntityControlInput(entityId, Word32(nextControlInputSequenceId), throttle, yaw))
      ensures ok <==> taken == |datagram|
    {
      hide App8, AppEntityControlInput, PutEntityControlInput, Word32;
      nextControlInputSequenceId := (nextControlInputSequenceId + 1) % TWO_TO_32;
      var payload := EntityControlInput(entityId, Word32(nextControlInputSequenceId), throttle, yaw);
      var writer := new BinaryWriter(true);
      writer.WriteUInt8(ENTITY_CONTROL_INPUT);
      SerializeEntityControlInput(writer, payload);
      AppPutEntityControlInput(App8([], ENTITY_CONTROL_INPUT), payload, []);
      AppPut8([], ENTITY_CONTROL_INPUT, PutEntityControlInput(payload, []));
      datagram := writer.buffer;
      ok := taken == |datagram|;
      assert datagram + [] == datagram;
      assert [] + InputDatagram(payload) == InputDatagram(payload);
    }
  }
}
