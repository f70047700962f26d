/** The messages of Common/Protocol.h and their byte layouts.

    A float or double travels as its bit pattern, so it is a bv32 or bv64 here. For each
    payload `Put` is its layout, `Take` its parser, and the Serialize / TryDeserialize
    methods are the code, proved against the two. */
module Protocol {
  import opened ByteOrder
  import opened BinarySerializer

  // The header byte of each message.
  const REGISTER_UDP_PORT: byte := 0
  const PLAY: byte := 1
  const PAUSE: byte := 2
  const STOP: byte := 3
  const RESET: byte := 4
  const SET_RATE: byte := 5
  const ENTITY_CONTROL_INPUT: byte := 6
  const ENTITY_STATE: byte := 7
  const ENTITY_SPAWN: byte := 8
  const ENTITY_DESPAWN: byte := 9

  // ----- fixed-size payloads -----

  /** A steering input. */
  datatype EntityControlInput = EntityControlInput(entityId: bv32, sequenceId: bv32, throttle: bv32, yaw: bv32)

  function PutEntityControlInput(p: EntityControlInput, rest: seq<byte>): (r: seq<byte>)
    ensures |r| == 16 + |rest|
  {
    Put32(p.entityId, Put32(p.sequenceId, Put32(p.throttle, Put32(p.yaw, rest))))
  }

  function TakeEntityControlInput(b: seq<byte>): Parse<EntityControlInput> {
    var (entityId, r1) :- Take32(b);
    var (sequenceId, r2) :- Take32(r1);
    var (throttle, r3) :- Take32(r2);
    var (yaw, r4) :- Take32(r3);
    Parsed(EntityControlInput(entityId, sequenceId, throttle, yaw), r4)
  }

  function AppEntityControlInput(buffer: seq<byte>, p: EntityControlInput): seq<byte> {
    var b1 := App32(buffer, p.entityId);
    var b2 := App32(b1, p.sequenceId);
    var b3 := App32(b2, p.throttle);
    App32(b3, p.yaw)
  }

  lemma AppPutEntityControlInput(buffer: seq<byte>, p: EntityControlInput, rest: seq<byte>)
    ensures AppEntityControlInput(buffer, p) + rest == buffer + PutEntityControlInput(p, rest)
  {
    hide BigEndian64, BigEndian32, Put64, Put32, Put8, App64, App32, App8;
    var b1 := App32(buffer, p.entityId);
    var b2 := App32(b1, p.sequenceId);
    var b3 := App32(b2, p.throttle);
    AppPut32(b3, p.yaw, rest);
    var p3 := Put32(p.yaw, rest);
    AppPut32(b2, p.throttle, p3);
    var p2 := Put32(p.throttle, p3);
    AppPut32(b1, p.sequenceId, p2);
    var p1 := Put32(p.sequenceId, p2);
    AppPut32(buffer, p.entityId, p1);
  }

  lemma TakePutEntityControlInput(p: EntityControlInput, rest: seq<byte>)
    ensures TakeEntityControlInput(PutEntityControlInput(p, rest)) == Parsed(p, rest)
  {
    hide FromBigEndian64, FromBigEndian32, FromBigEndian16, BigEndian64, BigEndian32, BigEndian16;
    var p4 := Put32(p.yaw, rest);
    TakePut32(p.yaw, rest);
    var p3 := Put32(p.throttle, p4);
    TakePut32(p.throttle, p4);
    var p2 := Put32(p.sequenceId, p3);
    TakePut32(p.sequenceId, p3);
    var p1 := Put32(p.entityId, p2);
    TakePut32(p.entityId, p2);
  }

  lemma TakeEntityControlInputShortIff(b: seq<byte>)
    ensures TakeEntityControlInput(b).Short? <==> |b| < 16
  {
    hide FromBigEndian64, FromBigEndian32, FromBigEndian16, BigEndian64, BigEndian32, BigEndian16;
  }

  lemma PutTakeEntityControlInput(b: seq<byte>)
    requires TakeEntityControlInput(b).Parsed?
    ensures PutEntityControlInput(TakeEntityControlInput(b).value, TakeEntityControlInput(b).rest) == b
  {
    hide FromBigEndian64, FromBigEndian32, FromBigEndian16, BigEndian64, BigEndian32, BigEndian16;
    PutTake32(b);
    var r1 := Take32(b).rest;
    PutTake32(r1);
    var r2 := Take32(r1).rest;
    PutTake32(r2);
    var r3 := Take32(r2).rest;
    PutTake32(r3);
  }

  method SerializeEntityControlInput(writer: BinaryWriter, p: EntityControlInput)
    modifies writer
    ensures writer.buffer == AppEntityControlInput(old(writer.buffer), p)
  {
    hide Take8, Take16, Take32, Take64, App8, App16, App32, App64;
    writer.WriteUInt32(p.entityId);
    writer.WriteUInt32(p.sequenceId);
    writer.WriteUInt32(p.throttle);
    writer.WriteUInt32(p.yaw);
  }

  method TryDeserializeEntityControlInput(reader: BinaryReader) returns (ok: bool, p: EntityControlInput)
    requires reader.Valid()
    modifies reader
    ensures reader.Valid() && reader.offset >= old(reader.offset)
    ensures ok <==> TakeEntityControlInput(old(reader.Rest())).Parsed?
    ensures ok ==> TakeEntityControlInput(old(reader.Rest())) == Parsed(p, reader.Rest())
  {
    hide Take8, Take16, Take32, Take64, App8, App16, App32, App64;
    p := EntityControlInput(0, 0, 0, 0);
    var entityId, sequenceId, throttle, yaw;
    ok, entityId := reader.TryReadUInt32();
    if !ok { return; }
    ok, sequenceId := reader.TryReadUInt32();
    if !ok { return; }
    ok, throttle := reader.TryReadUInt32();
    if !ok { return; }
    ok, yaw := reader.TryReadUInt32();
    if !ok { return; }
    p := EntityControlInput(entityId, sequenceId, throttle, yaw);
  }

  /** The announcement of an entity. */
  datatype EntitySpawn = EntitySpawn(entityId: bv32, entityType: byte, positionX: bv32, positionY: bv32, heading: bv32)

  function PutEntitySpawn(p: EntitySpawn, rest: seq<byte>): (r: seq<byte>)
    ensures |r| == 17 + |rest|
  {
    Put32(p.entityId, Put8(p.entityType, Put32(p.positionX, Put32(p.positionY, Put32(p.heading, rest)))))
  }

  function TakeEntitySpawn(b: seq<byte>): Parse<EntitySpawn> {
    var (entityId, r1) :- Take32(b);
    var (entityType, r2) :- Take8(r1);
    var (positionX, r3) :- Take32(r2);
    var (positionY, r4) :- Take32(r3);
    var (heading, r5) :- Take32(r4);
    Parsed(EntitySpawn(entityId, entityType, positionX, positionY, heading), r5)
  }

  function AppEntitySpawn(buffer: seq<byte>, p: EntitySpawn): seq<byte> {
    var b1 := App32(buffer, p.entityId);
    var b2 := App8(b1, p.entityType);
    var b3 := App32(b2, p.positionX);
    var b4 := App32(b3, p.positionY);
    App32(b4, p.heading)
  }

  lemma AppPutEntitySpawn(buffer: seq<byte>, p: EntitySpawn, rest: seq<byte>)
    ensures AppEntitySpawn(buffer, p) + rest == buffer + PutEntitySpawn(p, rest)
  {
    hide BigEndian64, BigEndian32, Put64, Put32, Put8, App64, App32, App8;
    var b1 := App32(buffer, p.entityId);
    var b2 := App8(b1, p.entityType);
    var b3 := App32(b2, p.positionX);
    var b4 := App32(b3, p.positionY);
    AppPut32(b4, p.heading, rest);
    var p4 := Put32(p.heading, rest);
    AppPut32(b3, p.positionY, p4);
    var p3 := Put32(p.positionY, p4);
    AppPut32(b2, p.positionX, p3);
    var p2 := Put32(p.positionX, p3);
    AppPut8(b1, p.entityType, p2);
    var p1 := Put8(p.entityType, p2);
    AppPut32(buffer, p.entityId, p1);
  }

  lemma TakePutEntitySpawn(p: EntitySpawn, rest: seq<byte>)
    ensures TakeEntitySpawn(PutEntitySpawn(p, rest)) == Parsed(p, rest)
  {
    hide FromBigEndian64, FromBigEndian32, FromBigEndian16, BigEndian64, BigEndian32, BigEndian16;
    var p5 := Put32(p.heading, rest);
    TakePut32(p.heading, rest);
    var p4 := Put32(p.positionY, p5);
    TakePut32(p.positionY, p5);
    var p3 := Put32(p.positionX, p4);
    TakePut32(p.positionX, p4);
    var p2 := Put8(p.entityType, p3);
    TakePut8(p.entityType, p3);
    var p1 := Put32(p.entityId, p2);
    TakePut32(p.entityId, p2);
  }

  lemma TakeEntitySpawnShortIff(b: seq<byte>)
    ensures TakeEntitySpawn(b).Short? <==> |b| < 17
  {
    hide FromBigEndian64, FromBigEndian32, FromBigEndian16, BigEndian64, BigEndian32, BigEndian16;
  }

  lemma PutTakeEntitySpawn(b: seq<byte>)
    requires TakeEntitySpawn(b).Parsed?
    ensures PutEntitySpawn(TakeEntitySpawn(b).value, TakeEntitySpawn(b).rest) == b
  {
    hide FromBigEndian64, FromBigEndian32, FromBigEndian16, BigEndian64, BigEndian32, BigEndian16;
    PutTake32(b);
    var r1 := Take32(b).rest;
    var r2 := Take8(r1).rest;
    PutTake32(r2);
    var r3 := Take32(r2).rest;
    PutTake32(r3);
    var r4 := Take32(r3).rest;
    PutTake32(r4);
  }

  method SerializeEntitySpawn(writer: BinaryWriter, p: EntitySpawn)
    modifies writer
    ensures writer.buffer == AppEntitySpawn(old(writer.buffer), p)
  {
    hide Take8, Take16, Take32, Take64, App8, App16, App32, App64;
    writer.WriteUInt32(p.entityId);
    writer.WriteUInt8(p.entityType);
    writer.WriteUInt32(p.positionX);
    writer.WriteUInt32(p.positionY);
    writer.WriteUInt32(p.heading);
  }

  method TryDeserializeEntitySpawn(reader: BinaryReader) returns (ok: bool, p: EntitySpawn)
    requires reader.Valid()
    modifies reader
    ensures reader.Valid() && reader.offset >= old(reader.offset)
    ensures ok <==> TakeEntitySpawn(old(reader.Rest())).Parsed?
    ensures ok ==> TakeEntitySpawn(old(reader.Rest())) == Parsed(p, reader.Rest())
  {
    hide Take8, Take16, Take32, Take64, App8, App16, App32, App64;
    p := EntitySpawn(0, 0, 0, 0, 0);
    var entityId, entityType, positionX, positionY, heading;
    ok, entityId := reader.TryReadUInt32();
    if !ok { return; }
    ok, entityType := reader.TryReadUInt8();
    if !ok { return; }
    ok, positionX := reader.TryReadUInt32();
    if !ok { return; }
    ok, positionY := reader.TryReadUInt32();
    if !ok { return; }
    ok, heading := reader.TryReadUInt32();
    if !ok { return; }
    p := EntitySpawn(entityId, entityType, positionX, positionY, heading);
  }

  /** Five 64-bit words in a row: a report is three such groups. */
  datatype Words = Words(a: bv64, b: bv64, c: bv64, d: bv64, e: bv64)

  function PutWords(w: Words, rest: seq<byte>): (r: seq<byte>)
    ensures |r| == 40 + |rest|
  {
    Put64(w.a, Put64(w.b, Put64(w.c, Put64(w.d, Put64(w.e, rest)))))
  }

  function TakeWords(b: seq<byte>): Parse<Words> {
    var (w1, r1) :- Take64(b);
    var (w2, r2) :- Take64(r1);
    var (w3, r3) :- Take64(r2);
    var (w4, r4) :- Take64(r3);
    var (w5, r5) :- Take64(r4);
    Parsed(Words(w1, w2, w3, w4, w5), r5)
  }

  function AppWords(buffer: seq<byte>, w: Words): seq<byte> {
    App64(App64(App64(App64(App64(buffer, w.a), w.b), w.c), w.d), w.e)
  }

  lemma AppPutWords(buffer: seq<byte>, w: Words, rest: seq<byte>)
    ensures AppWords(buffer, w) + rest == buffer + PutWords(w, rest)
  {
    hide BigEndian64, Put64, App64;
    var b1 := App64(buffer, w.a);
    var b2 := App64(b1, w.b);
    var b3 := App64(b2, w.c);
    var b4 := App64(b3, w.d);
    AppPut64(b4, w.e, rest);
    var p4 := Put64(w.e, rest);
    AppPut64(b3, w.d, p4);
    var p3 := Put64(w.d, p4);
    AppPut64(b2, w.c, p3);
    var p2 := Put64(w.c, p3);
    AppPut64(b1, w.b, p2);
    AppPut64(buffer, w.a, Put64(w.b, p2));
  }

  lemma TakePutWords(w: Words, rest: seq<byte>)
    ensures TakeWords(PutWords(w, rest)) == Parsed(w, rest)
  {
    hide Put64, Take64;
    TakePut64(w.e, rest);
    var p4 := Put64(w.e, rest);
    TakePut64(w.d, p4);
    var p3 := Put64(w.d, p4);
    TakePut64(w.c, p3);
    var p2 := Put64(w.c, p3);
    TakePut64(w.b, p2);
    TakePut64(w.a, Put64(w.b, p2));
  }

  lemma TakeWordsShortIff(b: seq<byte>)
    ensures TakeWords(b).Short? <==> |b| < 40
    ensures TakeWords(b).Parsed? ==> |TakeWords(b).rest| == |b| - 40
  {
    hide FromBigEndian64;
  }

  lemma PutTakeWords(b: seq<byte>)
    requires TakeWords(b).Parsed?
    ensures PutWords(TakeWords(b).value, TakeWords(b).rest) == b
  {
    hide FromBigEndian64, BigEndian64;
    PutTake64(b);
    var r1 := Take64(b).rest;
    PutTake64(r1);
    var r2 := Take64(r1).rest;
    PutTake64(r2);
    var r3 := Take64(r2).rest;
    PutTake64(r3);
    PutTake64(Take64(r3).rest);
  }

  method SerializeWords(writer: BinaryWriter, w: Words)
    modifies writer
    ensures writer.buffer == AppWords(old(writer.buffer), w)
  {
    hide App64;
    writer.WriteUInt64(w.a);
    writer.WriteUInt64(w.b);
    writer.WriteUInt64(w.c);
    writer.WriteUInt64(w.d);
    writer.WriteUInt64(w.e);
  }

  method TryDeserializeWords(reader: BinaryReader) returns (ok: bool, w: Words)
    requires reader.Valid()
    modifies reader
    ensures reader.Valid() && reader.offset >= old(reader.offset)
    ensures ok <==> TakeWords(old(reader.Rest())).Parsed?
    ensures ok ==> TakeWords(old(reader.Rest())) == Parsed(w, reader.Rest())
  {
    hide Take64, BinaryReader.Rest;
    w := Words(0, 0, 0, 0, 0);
    var a, b, c, d, e;
    ok, a := reader.TryReadUInt64();
    if !ok { return; }
    ok, b := reader.TryReadUInt64();
    if !ok { return; }
    ok, c := reader.TryReadUInt64();
    if !ok { return; }
    ok, d := reader.TryReadUInt64();
    if !ok { return; }
    ok, e := reader.TryReadUInt64();
    if !ok { return; }
    w := Words(a, b, c, d, e);
  }

  /** The client's last receive statistics, carried by Stop: fifteen 64-bit fields in wire order. */
  datatype StopReport = StopReport(
    elapsedSeconds: bv64, totalReceivedCount: bv64, lossCount: bv64, outOfOrderCount: bv64,
    lossRate: bv64, intervalSampleCount: bv64, averageReceiveInterval: bv64, maxReceiveInterval: bv64,
    averageIntervalDeviation: bv64, delayedPacketCount: bv64, delayedPacketRate: bv64, latencySampleCount: bv64,
    averageLatency: bv64, minLatency: bv64, maxLatency: bv64)
  {
    function Traffic(): Words {
      Words(elapsedSeconds, totalReceivedCount, lossCount, outOfOrderCount, lossRate)
    }
    function Intervals(): Words {
      Words(intervalSampleCount, averageReceiveInterval, maxReceiveInterval, averageIntervalDeviation, delayedPacketCount)
    }
    function Latency(): Words {
      Words(delayedPacketRate, latencySampleCount, averageLatency, minLatency, maxLatency)
    }
  }

  function ReportOf(u: Words, v: Words, w: Words): (p: StopReport)
    ensures p.Traffic() == u && p.Intervals() == v && p.Latency() == w
  {
    StopReport(u.a, u.b, u.c, u.d, u.e, v.a, v.b, v.c, v.d, v.e, w.a, w.b, w.c, w.d, w.e)
  }

  function PutStopReport(p: StopReport, rest: seq<byte>): (r: seq<byte>)
    ensures |r| == 120 + |rest|
  {
    PutWords(p.Traffic(), PutWords(p.Intervals(), PutWords(p.Latency(), rest)))
  }

  function TakeStopReport(b: seq<byte>): Parse<StopReport> {
    var (u, r1) :- TakeWords(b);
    var (v, r2) :- TakeWords(r1);
    var (w, r3) :- TakeWords(r2);
    Parsed(ReportOf(u, v, w), r3)
  }

  function AppStopReport(buffer: seq<byte>, p: StopReport): seq<byte> {
    AppWords(AppWords(AppWords(buffer, p.Traffic()), p.Intervals()), p.Latency())
  }

  lemma AppPutStopReport(buffer: seq<byte>, p: StopReport, rest: seq<byte>)
    ensures AppStopReport(buffer, p) + rest == buffer + PutStopReport(p, rest)
  {
    hide AppWords, PutWords;
    var b1 := AppWords(buffer, p.Traffic());
    AppPutWords(AppWords(b1, p.Intervals()), p.Latency(), rest);
    AppPutWords(b1, p.Intervals(), PutWords(p.Latency(), rest));
    AppPutWords(buffer, p.Traffic(), PutWords(p.Intervals(), PutWords(p.Latency(), rest)));
  }

  lemma TakePutStopReport(p: StopReport, rest: seq<byte>)
    ensures TakeStopReport(PutStopReport(p, rest)) == Parsed(p, rest)
  {
    hide TakeWords, PutWords;
    TakePutWords(p.Latency(), rest);
    TakePutWords(p.Intervals(), PutWords(p.Latency(), rest));
    TakePutWords(p.Traffic(), PutWords(p.Intervals(), PutWords(p.Latency(), rest)));
  }

  lemma TakeStopReportShortIff(b: seq<byte>)
    ensures TakeStopReport(b).Short? <==> |b| < 120
  {
    hide TakeWords;
    TakeWordsShortIff(b);
    if |b| >= 40 {
      var r1 := TakeWords(b).rest;
      TakeWordsShortIff(r1);
      if |r1| >= 40 {
        TakeWordsShortIff(TakeWords(r1).rest);
      }
    }
  }

  lemma PutTakeStopReport(b: seq<byte>)
    requires TakeStopReport(b).Parsed?
    ensures PutStopReport(TakeStopReport(b).value, TakeStopReport(b).rest) == b
  {
    hide TakeWords, PutWords;
    PutTakeWords(b);
    var r1 := TakeWords(b).rest;
    PutTakeWords(r1);
    PutTakeWords(TakeWords(r1).rest);
  }

  method SerializeStop(writer: BinaryWriter, p: StopReport)
    modifies writer
    ensures writer.buffer == AppStopReport(old(writer.buffer), p)
  {
    hide AppWords;
    SerializeWords(writer, p.Traffic());
    SerializeWords(writer, p.Intervals());
    SerializeWords(writer, p.Latency());
  }

  method TryDeserializeStop(reader: BinaryReader) returns (ok: bool, p: StopReport)
    requires reader.Valid()
    modifies reader
    ensures reader.Valid() && reader.offset >= old(reader.offset)
    ensures ok <==> TakeStopReport(old(reader.Rest())).Parsed?
    ensures ok ==> TakeStopReport(old(reader.Rest())) == Parsed(p, reader.Rest())
  {
    hide TakeWords, BinaryReader.Rest;
    var none := Words(0, 0, 0, 0, 0);
    p := ReportOf(none, none, none);
    var u, v, w;
    ok, u := TryDeserializeWords(reader);
    if !ok { return; }
    ok, v := TryDeserializeWords(reader);
    if !ok { return; }
    ok, w := TryDeserializeWords(reader);
    if !ok { return; }
    p := ReportOf(u, v, w);
  }

  /** One entity in a state batch. */
  datatype EntityStateEntry = EntityStateEntry(entityId: bv32, positionX: bv32, positionY: bv32, heading: bv32, velocityX: bv32, velocityY: bv32)

  function PutEntityStateEntry(e: EntityStateEntry, rest: seq<byte>): (r: seq<byte>)
    ensures |r| == 24 + |rest|
  {
    Put32(e.entityId, Put32(e.positionX, Put32(e.positionY, Put32(e.heading, Put32(e.velocityX,
    Put32(e.velocityY, rest))))))
  }

  function TakeEntityStateEntry(b: seq<byte>): Parse<EntityStateEntry> {
    var (entityId, r1) :- Take32(b);
    var (positionX, r2) :- Take32(r1);
    var (positionY, r3) :- Take32(r2);
    var (heading, r4) :- Take32(r3);
    var (velocityX, r5) :- Take32(r4);
    var (velocityY, r6) :- Take32(r5);
    Parsed(EntityStateEntry(entityId, positionX, positionY, heading, velocityX, velocityY), r6)
  }

  function AppEntityStateEntry(buffer: seq<byte>, e: EntityStateEntry): seq<byte> {
    var b1 := App32(buffer, e.entityId);
    var b2 := App32(b1, e.positionX);
    var b3 := App32(b2, e.positionY);
    var b4 := App32(b3, e.heading);
    var b5 := App32(b4, e.velocityX);
    App32(b5, e.velocityY)
  }

  lemma AppPutEntityStateEntry(buffer: seq<byte>, e: EntityStateEntry, rest: seq<byte>)
    ensures AppEntityStateEntry(buffer, e) + rest == buffer + PutEntityStateEntry(e, rest)
  {
    hide BigEndian64, BigEndian32, Put64, Put32, Put8, App64, App32, App8;
    var b1 := App32(buffer, e.entityId);
    var b2 := App32(b1, e.positionX);
    var b3 := App32(b2, e.positionY);
    var b4 := App32(b3, e.heading);
    var b5 := App32(b4, e.velocityX);
    AppPut32(b5, e.velocityY, rest);
    var p5 := Put32(e.velocityY, rest);
    AppPut32(b4, e.velocityX, p5);
    var p4 := Put32(e.velocityX, p5);
    AppPut32(b3, e.heading, p4);
    var p3 := Put32(e.heading, p4);
    AppPut32(b2, e.positionY, p3);
    var p2 := Put32(e.positionY, p3);
    AppPut32(b1, e.positionX, p2);
    var p1 := Put32(e.positionX, p2);
    AppPut32(buffer, e.entityId, p1);
  }

  lemma TakePutEntityStateEntry(e: EntityStateEntry, rest: seq<byte>)
    ensures TakeEntityStateEntry(PutEntityStateEntry(e, rest)) == Parsed(e, rest)
  {
    hide FromBigEndian64, FromBigEndian32, FromBigEndian16, BigEndian64, BigEndian32, BigEndian16;
    var p6 := Put32(e.velocityY, rest);
    TakePut32(e.velocityY, rest);
    var p5 := Put32(e.velocityX, p6);
    TakePut32(e.velocityX, p6);
    var p4 := Put32(e.heading, p5);
    TakePut32(e.heading, p5);
    var p3 := Put32(e.positionY, p4);
    TakePut32(e.positionY, p4);
    var p2 := Put32(e.positionX, p3);
    TakePut32(e.positionX, p3);
    var p1 := Put32(e.entityId, p2);
    TakePut32(e.entityId, p2);
  }

  lemma TakeEntityStateEntryShortIff(b: seq<byte>)
    ensures TakeEntityStateEntry(b).Short? <==> |b| < 24
    ensures TakeEntityStateEntry(b).Parsed? ==> |TakeEntityStateEntry(b).rest| == |b| - 24
  {
    hide FromBigEndian64, FromBigEndian32, FromBigEndian16, BigEndian64, BigEndian32, BigEndian16;
  }

  lemma PutTakeEntityStateEntry(b: seq<byte>)
    requires TakeEntityStateEntry(b).Parsed?
    ensures PutEntityStateEntry(TakeEntityStateEntry(b).value, TakeEntityStateEntry(b).rest) == b
  {
    hide FromBigEndian64, FromBigEndian32, FromBigEndian16, BigEndian64, BigEndian32, BigEndian16;
    PutTake32(b);
    var r1 := Take32(b).rest;
    PutTake32(r1);
    var r2 := Take32(r1).rest;
    PutTake32(r2);
    var r3 := Take32(r2).rest;
    PutTake32(r3);
    var r4 := Take32(r3).rest;
    PutTake32(r4);
    var r5 := Take32(r4).rest;
    PutTake32(r5);
  }

  method SerializeEntityStateEntry(writer: BinaryWriter, e: EntityStateEntry)
    modifies writer
    ensures writer.buffer == AppEntityStateEntry(old(writer.buffer), e)
  {
    hide Take8, Take16, Take32, Take64, App8, App16, App32, App64;
    writer.WriteUInt32(e.entityId);
    writer.WriteUInt32(e.positionX);
    writer.WriteUInt32(e.positionY);
    writer.WriteUInt32(e.heading);
    writer.WriteUInt32(e.velocityX);
    writer.WriteUInt32(e.velocityY);
  }

  method TryDeserializeEntityStateEntry(reader: BinaryReader) returns (ok: bool, e: EntityStateEntry)
    requires reader.Valid()
    modifies reader
    ensures reader.Valid() && reader.offset >= old(reader.offset)
    ensures ok <==> TakeEntityStateEntry(old(reader.Rest())).Parsed?
    ensures ok ==> TakeEntityStateEntry(old(reader.Rest())) == Parsed(e, reader.Rest())
  {
    hide Take8, Take16, Take32, Take64, App8, App16, App32, App64;
    e := EntityStateEntry(0, 0, 0, 0, 0, 0);
    var entityId, positionX, positionY, heading, velocityX, velocityY;
    ok, entityId := reader.TryReadUInt32();
    if !ok { return; }
    ok, positionX := reader.TryReadUInt32();
    if !ok { return; }
    ok, positionY := reader.TryReadUInt32();
    if !ok { return; }
    ok, heading := reader.TryReadUInt32();
    if !ok { return; }
    ok, velocityX := reader.TryReadUInt32();
    if !ok { return; }
    ok, velocityY := reader.TryReadUInt32();
    if !ok { return; }
    e := EntityStateEntry(entityId, positionX, positionY, heading, velocityX, velocityY);
  }

  // ----- the state batch -----

  /** One tick's states for one recipient. */
  datatype EntityStateBatch = EntityStateBatch(sequenceId: bv64, timestamp: bv64, entities: seq<EntityStateEntry>)

  /** static_cast<uint16_t> of the number of entries. */
  function EntityCount(batch: EntityStateBatch): u16 {
    |batch.entities| % 0x1_0000
  }

  function PutEntries(es: seq<EntityStateEntry>, rest: seq<byte>): (r: seq<byte>)
    ensures |r| == 24 * |es| + |rest|
  {
    if es == [] then rest else PutEntityStateEntry(es[0], PutEntries(es[1..], rest))
  }

  function PutEntityStateBatch(batch: EntityStateBatch, rest: seq<byte>): (r: seq<byte>)
    ensures |r| == 18 + 24 * |batch.entities| + |rest|
  {
    Put64(batch.sequenceId, Put64(batch.timestamp, Put16(EntityCount(batch), PutEntries(batch.entities, rest))))
  }

  function TakeEntries(n: nat, b: seq<byte>): Parse<seq<EntityStateEntry>> {
    if n == 0 then Parsed([], b)
    else
      var (e, r) :- TakeEntityStateEntry(b);
      var (es, r') :- TakeEntries(n - 1, r);
      Parsed([e] + es, r')
  }

  function TakeEntityStateBatch(b: seq<byte>): Parse<EntityStateBatch> {
    var (sequenceId, r1) :- Take64(b);
    var (timestamp, r2) :- Take64(r1);
    var (count, r3) :- Take16(r2);
    var (entities, r4) :- TakeEntries(count, r3);
    Parsed(EntityStateBatch(sequenceId, timestamp, entities), r4)
  }

  function AppEntries(buffer: seq<byte>, es: seq<EntityStateEntry>): seq<byte> {
    if es == [] then buffer
    else AppEntityStateEntry(AppEntries(buffer, es[..|es| - 1]), es[|es| - 1])
  }

  function AppEntityStateBatch(buffer: seq<byte>, batch: EntityStateBatch): seq<byte> {
    var b1 := App64(buffer, batch.sequenceId);
    var b2 := App64(b1, batch.timestamp);
    var b3 := App16(b2, EntityCount(batch));
    AppEntries(b3, batch.entities)
  }

  lemma {:induction false} PutEntriesSnoc(es: seq<EntityStateEntry>, e: EntityStateEntry, rest: seq<byte>)
    ensures PutEntries(es + [e], rest) == PutEntries(es, PutEntityStateEntry(e, rest))
  {
    hide FromBigEndian64, FromBigEndian32, FromBigEndian16, BigEndian64, BigEndian32, BigEndian16;
    if es == [] {
      assert PutEntries([e], rest) == PutEntityStateEntry(e, PutEntries([], rest));
    } else {
      assert (es + [e])[1..] == es[1..] + [e];
      PutEntriesSnoc(es[1..], e, rest);
    }
  }

  lemma {:induction false} AppEntriesIsPutEntries(buffer: seq<byte>, es: seq<EntityStateEntry>, rest: seq<byte>)
    ensures AppEntries(buffer, es) + rest == buffer + PutEntries(es, rest)
  {
    hide AppEntityStateEntry, PutEntityStateEntry;
    if es != [] {
      var init, last := es[..|es| - 1], es[|es| - 1];
      assert es == init + [last];
      AppPutEntityStateEntry(AppEntries(buffer, init), last, rest);
      AppEntriesIsPutEntries(buffer, init, PutEntityStateEntry(last, rest));
      PutEntriesSnoc(init, last, rest);
    }
  }

  /** What the writer appends is the batch's layout. */
  lemma AppBatchIsPutBatch(buffer: seq<byte>, batch: EntityStateBatch, rest: seq<byte>)
    ensures AppEntityStateBatch(buffer, batch) + rest == buffer + PutEntityStateBatch(batch, rest)
  {
    hide App64, App16, Put64, Put16, AppEntries, PutEntries;
    var b1 := App64(buffer, batch.sequenceId);
    var b2 := App64(b1, batch.timestamp);
    var b3 := App16(b2, EntityCount(batch));
    AppEntriesIsPutEntries(b3, batch.entities, rest);
    var p3 := PutEntries(batch.entities, rest);
    var p2 := Put16(EntityCount(batch), p3);
    var p1 := Put64(batch.timestamp, p2);
    AppPut16(b2, EntityCount(batch), p3);
    AppPut64(b1, batch.timestamp, p2);
    AppPut64(buffer, batch.sequenceId, p1);
  }

  lemma TakePutEntriesStep(es: seq<EntityStateEntry>, n: nat, rest: seq<byte>)
    requires 0 < n <= |es|
    requires TakeEntries(n - 1, PutEntries(es[1..], rest)) ==
             Parsed(es[1..][..n - 1], PutEntries(es[1..][n - 1..], rest))
    ensures TakeEntries(n, PutEntries(es, rest)) == Parsed(es[..n], PutEntries(es[n..], rest))
  {
    hide PutEntityStateEntry, TakeEntityStateEntry;
    var tail := PutEntries(es[1..], rest);
    var b := PutEntityStateEntry(es[0], tail);
    TakePutEntityStateEntry(es[0], tail);
    assert es[1..][n - 1..] == es[n..];
    assert [es[0]] + es[1..][..n - 1] == es[..n];
    assert PutEntries(es, rest) == b;
    assert TakeEntries(n, b) == Parsed([es[0]] + es[1..][..n - 1], PutEntries(es[1..][n - 1..], rest));
  }

  lemma {:induction false} TakePutEntries(es: seq<EntityStateEntry>, n: nat, rest: seq<byte>)
    requires n <= |es|
    ensures TakeEntries(n, PutEntries(es, rest)) == Parsed(es[..n], PutEntries(es[n..], rest))
  {
    hide PutEntityStateEntry, TakeEntityStateEntry;
    if n == 0 {
      assert es[..0] == [] && es[0..] == es;
    } else {
      TakePutEntries(es[1..], n - 1, rest);
      TakePutEntriesStep(es, n, rest);
    }
  }

  /** Any batch parses back to its first |entities| mod 65536 entries; what the 16-bit count
      does not cover is left unread. */
  lemma BatchRoundTripModCount(batch: EntityStateBatch, rest: seq<byte>)
    ensures TakeEntityStateBatch(PutEntityStateBatch(batch, rest)) ==
            Parsed(batch.(entities := batch.entities[..EntityCount(batch)]),
                   PutEntries(batch.entities[EntityCount(batch)..], rest))
  {
    hide FromBigEndian64, FromBigEndian32, FromBigEndian16, BigEndian64, BigEndian32, BigEndian16;
    var n := EntityCount(batch);
    var p3 := PutEntries(batch.entities, rest);
    var p2 := Put16(n, p3);
    var p1 := Put64(batch.timestamp, p2);
    TakePut64(batch.sequenceId, p1);
    TakePut64(batch.timestamp, p2);
    TakePut16(n, p3);
    TakePutEntries(batch.entities, n, rest);
  }

  lemma PutNoEntries(rest: seq<byte>)
    ensures PutEntries([], rest) == rest
  {
  }

  /** The batch comes back whole, and nothing is left over, exactly up to 65535 entries. */
  lemma BatchRoundTrip(batch: EntityStateBatch, rest: seq<byte>)
    ensures TakeEntityStateBatch(PutEntityStateBatch(batch, rest)) == Parsed(batch, rest) <==> |batch.entities| <= 65535
    ensures |PutEntityStateBatch(batch, [])| == 18 + 24 * |batch.entities|
  {
    hide FromBigEndian64, FromBigEndian32, FromBigEndian16, BigEndian64, BigEndian32, BigEndian16;
    hide Take64, Take16, Put64, Put16, TakeEntries, PutEntries, TakeEntityStateBatch, PutEntityStateBatch;
    BatchRoundTripModCount(batch, rest);
    PutNoEntries(rest);
    var n := EntityCount(batch);
    if |batch.entities| <= 65535 {
      assert batch.entities[..n] == batch.entities && batch.entities[n..] == [];
    } else {
      assert |batch.entities[..n]| == n < |batch.entities|;
    }
  }

  lemma {:induction false} PutTakeEntries(n: nat, b: seq<byte>)
    ensures TakeEntries(n, b).Short? <==> |b| < 24 * n
    ensures TakeEntries(n, b).Parsed? ==>
              |TakeEntries(n, b).value| == n && PutEntries(TakeEntries(n, b).value, TakeEntries(n, b).rest) == b
  {
    hide TakeEntityStateEntry, PutEntityStateEntry;
    if n > 0 {
      TakeEntityStateEntryShortIff(b);
      if |b| >= 24 {
        PutTakeEntityStateEntry(b);
        var r := TakeEntityStateEntry(b).rest;
        PutTakeEntries(n - 1, r);
        if TakeEntries(n - 1, r).Parsed? {
          var e, es := TakeEntityStateEntry(b).value, TakeEntries(n - 1, r).value;
          assert ([e] + es)[1..] == es;
          assert TakeEntries(n, b) == Parsed([e] + es, TakeEntries(n - 1, r).rest);
        }
      }
    }
  }

  /** A successful parse re-serialises to exactly the bytes it consumed. */
  lemma BatchReserialises(b: seq<byte>)
    requires TakeEntityStateBatch(b).Parsed?
    ensures PutEntityStateBatch(TakeEntityStateBatch(b).value, TakeEntityStateBatch(b).rest) == b
  {
    hide Take64, Take16, Put64, Put16, TakeEntries, PutEntries;
    PutTake64(b);
    var r1 := Take64(b).rest;
    PutTake64(r1);
    var r2 := Take64(r1).rest;
    PutTake16(r2);
    PutTakeEntries(Take16(r2).value, Take16(r2).rest);
  }

  /** The parser gives up exactly when the announced entries are not all there. */
  lemma BatchShortIff(b: seq<byte>)
    ensures TakeEntityStateBatch(b).Short? <==>
              |b| < 18 || |b| < 18 + 24 * FromBigEndian16(b[16..18])
  {
    hide FromBigEndian64, FromBigEndian32, FromBigEndian16, BigEndian64, BigEndian32, BigEndian16;
    if |b| >= 18 {
      var r1 := Take64(b).rest;
      var r2 := Take64(r1).rest;
      assert r2 == b[16..];
      assert b[16..][..2] == b[16..18];
      PutTakeEntries(Take16(r2).value, Take16(r2).rest);
    }
  }

  method SerializeEntityStateBatch(writer: BinaryWriter, batch: EntityStateBatch)
    modifies writer
    ensures writer.buffer == AppEntityStateBatch(old(writer.buffer), batch)
  {
    hide App64, App16, AppEntityStateEntry;
    writer.WriteUInt64(batch.sequenceId);
    writer.WriteUInt64(batch.timestamp);
    writer.WriteUInt16(EntityCount(batch));
    ghost var start := writer.buffer;
    for i := 0 to |batch.entities|
      invariant writer.buffer == AppEntries(start, batch.entities[..i])
    {
      assert batch.entities[..i + 1][..i] == batch.entities[..i];
      SerializeEntityStateEntry(writer, batch.entities[i]);
    }
    assert batch.entities[..|batch.entities|] == batch.entities;
  }

  method TryDeserializeEntityStateBatch(reader: BinaryReader) returns (ok: bool, batch: EntityStateBatch)
    requires reader.Valid()
    modifies reader
    ensures reader.Valid() && reader.offset >= old(reader.offset)
    ensures ok <==> TakeEntityStateBatch(old(reader.Rest())).Parsed?
    ensures ok ==> TakeEntityStateBatch(old(reader.Rest())) == Parsed(batch, reader.Rest())
  {
    hide Take16, Take64, TakeEntityStateEntry;
    batch := EntityStateBatch(0, 0, []);
    var sequenceId, timestamp, entityCount;
    ok, sequenceId := reader.TryReadUInt64();
    if !ok { return; }
    ok, timestamp := reader.TryReadUInt64();
    if !ok { return; }
    ok, entityCount := reader.TryReadUInt16();
    if !ok { return; }
    ghost var start := reader.Rest();
    var entities := [];
    PrependNothing(TakeEntries(entityCount, start));
    for i := 0 to entityCount
      invariant reader.Valid() && reader.offset >= old(reader.offset)
      invariant TakeEntries(entityCount, start) == Prepend(entities, TakeEntries(entityCount - i, reader.Rest()))
    {
      PrependStep(entities, entityCount - i, reader.Rest());
      var entry;
      ok, entry := TryDeserializeEntityStateEntry(reader);
      if !ok { return; }
      entities := entities + [entry];
    }
    assert TakeEntries(0, reader.Rest()) == Parsed([], reader.Rest());
    assert entities + [] == entities;
    batch := EntityStateBatch(sequenceId, timestamp, entities);
    ok := true;
  }

  ghost function Prepend(es: seq<EntityStateEntry>, p: Parse<seq<EntityStateEntry>>): Parse<seq<EntityStateEntry>> {
    match p
    case Short => Short
    case Parsed(es', r) => Parsed(es + es', r)
  }

  lemma PrependNothing(p: Parse<seq<EntityStateEntry>>)
    ensures Prepend([], p) == p
  {
    assert p.Parsed? ==> [] + p.value == p.value;
  }

  lemma PrependStep(es: seq<EntityStateEntry>, n: nat, b: seq<byte>)
    requires n > 0
    ensures Prepend(es, TakeEntries(n, b)) ==
            match TakeEntityStateEntry(b)
            case Short => Short
            case Parsed(e, r) => Prepend(es + [e], TakeEntries(n - 1, r))
  {
    hide TakeEntityStateEntry;
    match TakeEntityStateEntry(b)
    case Short =>
    case Parsed(e, r) =>
      match TakeEntries(n - 1, r)
      case Short =>
      case Parsed(es', r') => assert es + ([e] + es') == (es + [e]) + es';
  }

  // ----- patching the sequence id in place -----

  /** The bytes after the 1-byte header replaced by another sequence id, if they are there. */
  function Patched(packet: seq<byte>, sequenceId: bv64): (r: seq<byte>)
    ensures |r| == |packet|
  {
    if |packet| < 9 then packet else packet[..1] + Put64(sequenceId, packet[9..])
  }

  /** A whole datagram serialised from scratch. */
  function StateDatagram(batch: EntityStateBatch): (r: seq<byte>)
    ensures |r| == 19 + 24 * |batch.entities|
  {
    Put8(ENTITY_STATE, PutEntityStateBatch(batch, []))
  }

  /** Patching a serialised batch is serialising the batch with the other id: nothing else in
      the datagram depends on it, whatever id was there before. */
  lemma PatchIsReserialise(batch: EntityStateBatch, sequenceId: bv64)
    ensures Patched(StateDatagram(batch), sequenceId) == StateDatagram(batch.(sequenceId := sequenceId))
  {
    var packet := StateDatagram(batch);
    var tail := Put64(batch.timestamp, Put16(EntityCount(batch), PutEntries(batch.entities, [])));
    assert packet == [ENTITY_STATE] + (BigEndian64(batch.sequenceId) + tail);
    assert packet[9..] == tail;
    assert packet[..1] == [ENTITY_STATE];
  }

  method PatchEntityStateSequenceId(packet: array<byte>, sequenceId: bv64, littleEndian: bool)
    modifies packet
    ensures packet[..] == Patched(old(packet[..]), sequenceId)
  {
    if packet.Length < 9 {
      return;
    }
    var networkValue := Memory64(HostToNetwork64(sequenceId, littleEndian), littleEndian);
    HostToNetworkIsBigEndian64(sequenceId, littleEndian);
    for i := 0 to 8
      invariant packet[..1] == old(packet[..1])
      invariant packet[1..1 + i] == networkValue[..i]
      invariant packet[9..] == old(packet[9..])
    {
      packet[1 + i] := networkValue[i];
      assert packet[1..1 + i + 1] == packet[1..1 + i] + [networkValue[i]];
    }
    assert packet[..] == packet[..1] + (packet[1..9] + packet[9..]);
  }
}
