/** The bytes of every message, position by position (Common/Protocol.h, Common/Protocol.cpp). */
module WireLayout {
  import opened ByteOrder
  import opened BinarySerializer
  import opened Protocol
  import opened Metrics
  import opened ControlChannel
  import opened Worlds
  import opened AnnouncementStream
  import opened ControlInputReceiver
  import opened ClientReceiver
  import opened GameClients

  /** The most significant byte comes first. */
  lemma NetworkOrder()
    ensures BigEndian16(0x0102) == [1, 2]
    ensures BigEndian32(0x0102_0304) == [1, 2, 3, 4]
    ensures BigEndian64(0x0102_0304_0506_0708) == [1, 2, 3, 4, 5, 6, 7, 8]
  {
    NatOfByteOf(1);
    NatOfByteOf(2);
    ByteOfNatOf(1);
    ByteOfNatOf(2);
    assert NatOf(1) == 1 && NatOf(2) == 2;
  }

  /** The control messages without a report. */
  lemma ControlBytes(port: u16, hz: bv32)
    ensures PutMessage(RegisterUdpPort(port), []) == [0] + BigEndian16(port)
    ensures PutMessage(PlayMessage, []) == [1]
    ensures PutMessage(PauseMessage, []) == [2]
    ensures PutMessage(ResetMessage, []) == [4]
    ensures PutMessage(SetRateMessage(hz), []) == [5] + BigEndian32(hz)
  {
    hide BigEndian16, BigEndian32;
  }

  /** The i-th of the 64-bit fields behind a header byte. */
  function Field(b: seq<byte>, i: nat): seq<byte>
    requires 9 + 8 * i <= |b|
  {
    b[1 + 8 * i..9 + 8 * i]
  }

  lemma FiveWords(w: Words, rest: seq<byte>)
    ensures var b := PutWords(w, rest);
            && |b| == 40 + |rest|
            && b[..8] == BigEndian64(w.a) && b[8..16] == BigEndian64(w.b) && b[16..24] == BigEndian64(w.c)
            && b[24..32] == BigEndian64(w.d) && b[32..40] == BigEndian64(w.e) && b[40..] == rest
  {
    hide BigEndian64;
    var r4 := Put64(w.e, rest);
    var r3 := Put64(w.d, r4);
    var r2 := Put64(w.c, r3);
    var r1 := Put64(w.b, r2);
    var b := Put64(w.a, r1);
    assert b[8..] == r1 && b[16..] == r2 && b[24..] == r3 && b[32..] == r4;
    SliceBehind(b, 8, r1, 8);
    SliceBehind(b, 16, r2, 8);
    SliceBehind(b, 24, r3, 8);
    SliceBehind(b, 32, r4, 8);
  }

  lemma SliceBehind(b: seq<byte>, k: nat, tail: seq<byte>, n: nat)
    requires k <= |b| && b[k..] == tail && n <= |tail|
    ensures b[k..k + n] == tail[..n]
  {
  }

  /** A Stop message is 121 bytes and carries a client's statistics in this order. */
  lemma StopBytes(s: Snapshot, latency: LatencyFields, e: Encoding)
    ensures var b := PutMessage(StopMessage(ReportOfSnapshot(s, latency, e)), []);
            && |b| == 121 && b[0] == 3
            && Field(b, 0) == BigEndian64(e.double(s.elapsedSeconds))
            && Field(b, 1) == BigEndian64(e.count(s.received))
            && Field(b, 2) == BigEndian64(e.count(s.lossCount))
            && Field(b, 3) == BigEndian64(e.count(s.outOfOrder))
            && Field(b, 4) == BigEndian64(e.double(s.lossRate))
            && Field(b, 5) == BigEndian64(e.count(s.samples))
            && Field(b, 6) == BigEndian64(e.double(s.averageMs))
            && Field(b, 7) == BigEndian64(e.double(s.maxMs))
            && Field(b, 8) == BigEndian64(e.double(s.averageDeviationMs))
            && Field(b, 9) == BigEndian64(e.count(s.delayed))
            && Field(b, 10) == BigEndian64(e.double(s.delayedRate))
            && Field(b, 11) == BigEndian64(latency.samples)
            && Field(b, 12) == BigEndian64(latency.average)
            && Field(b, 13) == BigEndian64(latency.minimum)
            && Field(b, 14) == BigEndian64(latency.maximum)
  {
    hide BigEndian64, PutWords, Field;
    var r := ReportOfSnapshot(s, latency, e);
    var third := PutWords(r.Latency(), []);
    var second := PutWords(r.Intervals(), third);
    var first := PutWords(r.Traffic(), second);
    FiveWords(r.Latency(), []);
    FiveWords(r.Intervals(), third);
    FiveWords(r.Traffic(), second);
    var b := PutMessage(StopMessage(r), []);
    assert b == [3] + first;
    WordsAt(b, first, second, third);
  }

  lemma WordsAt(b: seq<byte>, first: seq<byte>, second: seq<byte>, third: seq<byte>)
    requires |first| == 120 && |second| == 80 && |third| == 40
    requires b == [3] + first && first[40..] == second && second[40..] == third
    ensures forall i: nat :: i < 5 ==> Field(b, i) == first[8 * i..8 * i + 8]
    ensures forall i: nat :: i < 5 ==> Field(b, i + 5) == second[8 * i..8 * i + 8]
    ensures forall i: nat :: i < 5 ==> Field(b, i + 10) == third[8 * i..8 * i + 8]
  {
  }

  /** A steering datagram. */
  lemma InputBytes(p: EntityControlInput)
    ensures var b := InputDatagram(p);
            && |b| == 17 && b[0] == 6
            && b[1..5] == BigEndian32(p.entityId) && b[5..9] == BigEndian32(p.sequenceId)
            && b[9..13] == BigEndian32(p.throttle) && b[13..17] == BigEndian32(p.yaw)
  {
    hide BigEndian32;
    var r3 := Put32(p.yaw, []);
    var r2 := Put32(p.throttle, r3);
    var r1 := Put32(p.sequenceId, r2);
    var b := InputDatagram(p);
    assert b[1..] == Put32(p.entityId, r1) && b[5..] == r1 && b[9..] == r2 && b[13..] == r3;
    SliceBehind(b, 1, Put32(p.entityId, r1), 4);
    SliceBehind(b, 5, r1, 4);
    SliceBehind(b, 9, r2, 4);
    SliceBehind(b, 13, r3, 4);
  }

  /** The announcements. */
  lemma AnnouncementBytes(id: bv32, kind: byte, x: bv32, y: bv32, heading: bv32)
    ensures PutAnnouncement(Despawn(id), []) == [9] + BigEndian32(id)
    ensures var b := PutAnnouncement(Spawn(id, kind, x, y, heading), []);
            && |b| == 18 && b[0] == 8
            && b[1..5] == BigEndian32(id) && b[5] == kind
            && b[6..10] == BigEndian32(x) && b[10..14] == BigEndian32(y) && b[14..18] == BigEndian32(heading)
  {
    hide BigEndian32;
    var r3 := Put32(heading, []);
    var r2 := Put32(y, r3);
    var r1 := Put32(x, r2);
    var r0 := Put32(id, [kind] + r1);
    var b := PutAnnouncement(Spawn(id, kind, x, y, heading), []);
    assert b[1..] == r0 && b[5..] == [kind] + r1 && b[6..] == r1 && b[10..] == r2 && b[14..] == r3;
    SliceBehind(b, 1, r0, 4);
    SliceBehind(b, 6, r1, 4);
    SliceBehind(b, 10, r2, 4);
    SliceBehind(b, 14, r3, 4);
  }

  /** A state datagram: one sequence number and one time for all its entries, and how many. */
  lemma StateBytes(batch: EntityStateBatch)
    ensures var b := StateDatagram(batch);
            && |b| == 19 + 24 * |batch.entities| && b[0] == 7
            && b[1..9] == BigEndian64(batch.sequenceId) && b[9..17] == BigEndian64(batch.timestamp)
            && b[17..19] == BigEndian16(|batch.entities| % 65536)
            && b[19..] == PutEntries(batch.entities, [])
  {
    hide BigEndian64, BigEndian16, PutEntries;
    var r2 := Put16(EntityCount(batch), PutEntries(batch.entities, []));
    var r1 := Put64(batch.timestamp, r2);
    var r0 := Put64(batch.sequenceId, r1);
    var b := StateDatagram(batch);
    assert b[1..] == r0 && b[9..] == r1 && b[17..] == r2;
    SliceBehind(b, 1, r0, 8);
    SliceBehind(b, 9, r1, 8);
    SliceBehind(b, 17, r2, 2);
  }

  /** Entry i of a state datagram. */
  lemma {:induction false} EntryBytes(es: seq<EntityStateEntry>, i: nat)
    requires i < |es|
    ensures |PutEntries(es, [])| == 24 * |es|
    ensures var b, e := PutEntries(es, [])[24 * i..], es[i];
            && b[0..4] == BigEndian32(e.entityId) && b[4..8] == BigEndian32(e.positionX)
            && b[8..12] == BigEndian32(e.positionY) && b[12..16] == BigEndian32(e.heading)
            && b[16..20] == BigEndian32(e.velocityX) && b[20..24] == BigEndian32(e.velocityY)
  {
    hide BigEndian32, PutEntityStateEntry;
    var rest, b := PutEntries(es[1..], []), PutEntries(es, []);
    OneEntry(es[0], rest);
    if i == 0 {
      assert b[0..] == b;
    } else {
      EntryBytes(es[1..], i - 1);
      assert b[24 * i..] == rest[24 * (i - 1)..];
    }
  }

  lemma OneEntry(e: EntityStateEntry, rest: seq<byte>)
    ensures var b := PutEntityStateEntry(e, rest);
            && |b| == 24 + |rest| && b[24..] == rest
            && b[0..4] == BigEndian32(e.entityId) && b[4..8] == BigEndian32(e.positionX)
            && b[8..12] == BigEndian32(e.positionY) && b[12..16] == BigEndian32(e.heading)
            && b[16..20] == BigEndian32(e.velocityX) && b[20..24] == BigEndian32(e.velocityY)
  {
    hide BigEndian32;
    var r5 := Put32(e.velocityY, rest);
    var r4 := Put32(e.velocityX, r5);
    var r3 := Put32(e.heading, r4);
    var r2 := Put32(e.positionY, r3);
    var r1 := Put32(e.positionX, r2);
    var b := Put32(e.entityId, r1);
    assert b[4..] == r1 && b[8..] == r2 && b[12..] == r3 && b[16..] == r4 && b[20..] == r5;
    SliceBehind(b, 4, r1, 4);
    SliceBehind(b, 8, r2, 4);
    SliceBehind(b, 12, r3, 4);
    SliceBehind(b, 16, r4, 4);
    SliceBehind(b, 20, r5, 4);
  }

  // ----- what is understood and what is not -----

  /** What a worker makes of the next bytes of any stream: types 0, 3 and 5 are waited for with
      their payloads, registered or not; any other byte is skipped before registration; after it
      types 1, 2 and 4 are served and the rest end the connection. */
  lemma WorkerUnderstands(b: seq<byte>, c: Control)
    ensures (ServeOne(b, c) == Ended) <==>
            (b == [] || (b[0] == 0 && |b| < 3) || (b[0] == 3 && |b| < 121) || (b[0] == 5 && |b| < 5))
    ensures (ServeOne(b, c) == Refused) <==> (b != [] && c.registered && b[0] > 5)
    ensures b != [] && !c.registered && b[0] != 0 && b[0] != 3 && b[0] != 5 ==> ServeOne(b, c) == Served(c, b[1..])
    ensures b != [] && c.registered && (b[0] == 1 || b[0] == 2 || b[0] == 4) ==>
              ServeOne(b, c).Served? && ServeOne(b, c).rest == b[1..]
  {
    hide Handle, FromBigEndian16, FromBigEndian32, TakeStopReport;
    if b != [] {
      TakeStopReportShortIff(b[1..]);
    }
  }

  /** What a client makes of the next bytes on its control connection. */
  lemma ClientUnderstands(b: seq<byte>)
    ensures TakeAnnouncement(b).Parsed? <==> b != [] && ((b[0] == 8 && |b| >= 18) || (b[0] == 9 && |b| >= 5))
  {
    hide TakeEntitySpawn, FromBigEndian32;
    if b != [] {
      TakeEntitySpawnShortIff(b[1..]);
    }
  }

  /** Which datagrams are inputs, and which are states. */
  lemma DatagramsUnderstood(b: seq<byte>)
    ensures TakeInput(b).Parsed? <==> 17 <= |b| <= 64 && b[0] == 6
    ensures TakeState(b).Parsed? <==>
              |b| >= 19 && b[0] == 7 && |b| >= 19 + 24 * FromBigEndian16(b[17..19])
  {
    hide TakeEntityControlInput, TakeEntityStateBatch, FromBigEndian16;
    if b != [] {
      TakeEntityControlInputShortIff(b[1..]);
      BatchShortIff(b[1..]);
      assert |b| >= 19 ==> b[1..][16..18] == b[17..19];
    }
  }
}
