/** The client's reader of Spawn and Despawn announcements (ClientCore/TcpMessageReceiver.cpp). */
module AnnouncementStream {
  import opened ByteOrder
  import opened BinarySerializer
  import opened Protocol
  import opened Tcp
  import opened Worlds

  function PutAnnouncement(a: Announcement, rest: seq<byte>): seq<byte> {
    match a
    case Spawn(id, entityType, x, y, heading) =>
      Put8(ENTITY_SPAWN, PutEntitySpawn(EntitySpawn(id, entityType, x, y, heading), rest))
    case Despawn(id) => Put8(ENTITY_DESPAWN, Put32(id, rest))
  }

  function PutAnnouncements(announcements: seq<Announcement>, rest: seq<byte>): seq<byte> {
    if announcements == [] then rest else PutAnnouncement(announcements[0], PutAnnouncements(announcements[1..], rest))
  }

  /** One announcement off the front, or none: too few bytes, or a type that does not belong. */
  function TakeAnnouncement(b: seq<byte>): Parse<Announcement> {
    var (kind, payload) :- Take8(b);
    if kind == ENTITY_SPAWN then
      var (p, rest) :- TakeEntitySpawn(payload);
      Parsed(Spawn(p.entityId, p.entityType, p.positionX, p.positionY, p.heading), rest)
    else if kind == ENTITY_DESPAWN then
      var (id, rest) :- Take32(payload);
      Parsed(Despawn(id), rest)
    else Short
  }

  /** The world after at most `fuel` announcements off a stream. */
  ghost function Follow(b: seq<byte>, w: World, fuel: nat): World
    decreases fuel
  {
    if fuel == 0 || TakeAnnouncement(b).Short? then w
    else Follow(TakeAnnouncement(b).rest, Hear(w, TakeAnnouncement(b).value), fuel - 1)
  }

  lemma TakesOneAnnouncement(a: Announcement, rest: seq<byte>)
    ensures TakeAnnouncement(PutAnnouncement(a, rest)) == Parsed(a, rest)
  {
    hide TakeEntitySpawn, PutEntitySpawn, Take32, Put32;
    match a
    case Spawn(id, entityType, x, y, heading) =>
      var p := EntitySpawn(id, entityType, x, y, heading);
      TakePutEntitySpawn(p, rest);
      TakePut8(ENTITY_SPAWN, PutEntitySpawn(p, rest));
    case Despawn(id) =>
      TakePut32(id, rest);
      TakePut8(ENTITY_DESPAWN, Put32(id, rest));
  }

  /** Following a stream of announcements is hearing the announcements; after n rounds exactly
      the first n have been heard. */
  lemma {:induction false} StreamIsAnnouncements(announcements: seq<Announcement>, w: World, fuel: nat)
    ensures Follow(PutAnnouncements(announcements, []), w, fuel) ==
            HearAll(w, announcements[..if fuel < |announcements| then fuel else |announcements|])
  {
    hide PutAnnouncement, TakeAnnouncement, Hear;
    if announcements == [] {
      EmptyStream();
    } else if fuel == 0 {
      assert announcements[..0] == [];
    } else {
      TakesOneAnnouncement(announcements[0], PutAnnouncements(announcements[1..], []));
      StreamIsAnnouncements(announcements[1..], Hear(w, announcements[0]), fuel - 1);
      var n := if fuel < |announcements| then fuel else |announcements|;
      assert announcements[..n][0] == announcements[0];
      assert announcements[..n][1..] == announcements[1..][..n - 1];
    }
  }

  lemma EmptyStream()
    ensures TakeAnnouncement([]) == Short
  {
  }

  lemma TakingConsumes(b: seq<byte>)
    ensures TakeAnnouncement(b).Parsed? ==> |TakeAnnouncement(b).rest| < |b|
  {
    hide TakeEntitySpawn, PutEntitySpawn, FromBigEndian32;
    if |b| > 0 && TakeEntitySpawn(b[1..]).Parsed? {
      PutTakeEntitySpawn(b[1..]);
      var p := TakeEntitySpawn(b[1..]);
      assert |PutEntitySpawn(p.value, p.rest)| == 17 + |p.rest|;
    }
  }

  lemma SpawnIsPrefix(stream: seq<byte>)
    requires |stream| >= 17
    ensures TakeEntitySpawn(stream[..17]).Parsed?
    ensures TakeEntitySpawn(stream) == Parsed(TakeEntitySpawn(stream[..17]).value, stream[17..])
  {
    hide TakeEntitySpawn, PutEntitySpawn, AppEntitySpawn;
    var front, back := stream[..17], stream[17..];
    TakeEntitySpawnShortIff(front);
    PutTakeEntitySpawn(front);
    var p, none := TakeEntitySpawn(front).value, TakeEntitySpawn(front).rest;
    assert |PutEntitySpawn(p, none)| == 17 + |none|;
    assert none == [];
    AppPutEntitySpawn([], p, []);
    AppPutEntitySpawn([], p, back);
    var image := AppEntitySpawn([], p);
    assert image + [] == image && [] + PutEntitySpawn(p, []) == front;
    assert stream == front + back == PutEntitySpawn(p, back);
    TakePutEntitySpawn(p, back);
  }

  /** One turn of the receive loop; false once the connection fails or breaks the protocol. */
  method ReceiveOne(socket: TcpSocket, world: EntityWorld) returns (keep: bool)
    modifies socket, world
    ensures var parse := TakeAnnouncement(old(socket.incoming));
            && (keep ==> parse.Parsed? && socket.incoming == parse.rest && world.View() == Hear(old(world.View()), parse.value))
            && (!keep ==> world.View() == old(world.View()))
            && (old(socket.Delivers()) && old(socket.isValid) ==> (keep <==> parse.Parsed?))
            && (old(socket.Delivers()) ==> socket.Delivers())
            && socket.isValid == old(socket.isValid)
  {
    hide Hear, TakeEntitySpawn, FromBigEndian32;
    keep := false;
    ghost var stream := socket.incoming;
    var header := new byte[1];
    var ok := socket.ReceiveAll(header);
    if !ok { return; }
    var kind := header[0];
    ghost var payload := stream[1..];
    assert header[..] == stream[..1];
    assert Take8(stream) == Parsed(kind, payload);
    if kind == ENTITY_SPAWN {
      keep := ReceiveSpawn(socket, world);
    } else if kind == ENTITY_DESPAWN {
      keep := ReceiveDespawn(socket, world);
    }
  }

  method ReceiveSpawn(socket: TcpSocket, world: EntityWorld) returns (keep: bool)
    modifies socket, world
    ensures var parse := TakeEntitySpawn(old(socket.incoming));
            && (keep ==> parse.Parsed? && socket.incoming == parse.rest &&
                         var p := parse.value;
                         world.View() == Hear(old(world.View()),
                           Spawn(p.entityId, p.entityType, p.positionX, p.positionY, p.heading)))
            && (!keep ==> world.View() == old(world.View()))
            && (old(socket.Delivers()) && old(socket.isValid) ==> (keep <==> parse.Parsed?))
            && (old(socket.Delivers()) ==> socket.Delivers())
            && socket.isValid == old(socket.isValid)
  {
    hide Hear, TakeEntitySpawn;
    keep := false;
    ghost var payload := socket.incoming;
    TakeEntitySpawnShortIff(payload);
    var bytes := new byte[17];
    var ok := socket.ReceiveAll(bytes);
    if !ok { return; }
    SpawnIsPrefix(payload);
    var reader := new BinaryReader(bytes[..], true);
    var parsed, p := TryDeserializeEntitySpawn(reader);
    world.OnSpawn(p);
    keep := true;
  }

  method ReceiveDespawn(socket: TcpSocket, world: EntityWorld) returns (keep: bool)
    modifies socket, world
    ensures var parse := Take32(old(socket.incoming));
            && (keep ==> parse.Parsed? && socket.incoming == parse.rest &&
                         world.View() == Hear(old(world.View()), Despawn(parse.value)))
            && (!keep ==> world.View() == old(world.View()))
            && (old(socket.Delivers()) && old(socket.isValid) ==> (keep <==> parse.Parsed?))
            && (old(socket.Delivers()) ==> socket.Delivers())
            && socket.isValid == old(socket.isValid)
  {
    hide Hear;
    keep := false;
    ghost var payload := socket.incoming;
    var bytes := new byte[4];
    var ok := socket.ReceiveAll(bytes);
    if !ok { return; }
    assert payload[..4] == bytes[..] == bytes[..][..4] && payload[4..] == socket.incoming;
    var reader := new BinaryReader(bytes[..], true);
    var parsed, id := reader.TryReadUInt32();
    world.OnDespawn(id);
    keep := true;
  }

  /** The receive loop on a connection nobody stops, for any stream: it runs until the stream
      ends, stops short or breaks the protocol, and then reports an unexpected failure. Whatever
      pieces the bytes came in, the world has heard some number of whole announcements; if the
      connection did not fail early, all there are before the stream gives out. */
  method ReceiveWorker(socket: TcpSocket, world: EntityWorld) returns (hasFailedUnexpectedly: bool, ghost rounds: nat)
    modifies socket, world
    ensures hasFailedUnexpectedly
    ensures var stream, start := old(socket.incoming), old(world.View());
            && world.View() == Follow(stream, start, rounds)
            && (old(socket.Delivers()) && old(socket.isValid) ==>
                  forall more: nat :: more >= rounds ==> world.View() == Follow(stream, start, more))
  {
    hide TakeAnnouncement, Hear;
    hasFailedUnexpectedly, rounds := false, 0;
    ghost var stream, start := socket.incoming, world.View();
    assert forall fuel: nat :: Follow(stream, start, fuel) == Follow(socket.incoming, world.View(), fuel);
    while !hasFailedUnexpectedly
      invariant !hasFailedUnexpectedly ==> forall fuel: nat ::
                  Follow(stream, start, rounds + fuel) == Follow(socket.incoming, world.View(), fuel)
      invariant world.View() == Follow(stream, start, rounds)
      invariant socket.isValid == old(socket.isValid)
      invariant old(socket.Delivers()) ==> socket.Delivers()
      invariant hasFailedUnexpectedly && old(socket.Delivers()) && old(socket.isValid) ==>
                  forall more: nat :: more >= rounds ==> Follow(stream, start, more) == Follow(stream, start, rounds)
      decreases !hasFailedUnexpectedly, |socket.incoming|
    {
      ghost var before, w := socket.incoming, world.View();
      var keep := ReceiveOne(socket, world);
      TakingConsumes(before);
      if keep {
        forall fuel: nat
          ensures Follow(stream, start, rounds + 1 + fuel) == Follow(socket.incoming, world.View(), fuel)
        {
          assert Follow(stream, start, rounds + (1 + fuel)) == Follow(before, w, 1 + fuel);
        }
        rounds := rounds + 1;
        assert Follow(stream, start, rounds + 0) == Follow(socket.incoming, world.View(), 0);
      } else {
        hasFailedUnexpectedly := true;
        if old(socket.Delivers()) && old(socket.isValid) {
          forall more: nat | more >= rounds
            ensures Follow(stream, start, more) == Follow(stream, start, rounds)
          {
            assert Follow(stream, start, rounds + (more - rounds)) == Follow(before, w, more - rounds) == w;
          }
        }
      }
    }
  }

  /** On a stream of announcements: a prefix of whole ones is heard, all of them if the connection
      does not fail early. */
  method HearServer(socket: TcpSocket, world: EntityWorld, ghost announcements: seq<Announcement>)
    returns (hasFailedUnexpectedly: bool, ghost heard: nat)
    requires socket.incoming == PutAnnouncements(announcements, [])
    modifies socket, world
    ensures hasFailedUnexpectedly && heard <= |announcements|
    ensures world.View() == HearAll(old(world.View()), announcements[..heard])
    ensures old(socket.Delivers()) && old(socket.isValid) ==> heard == |announcements|
  {
    hide Follow, HearAll, PutAnnouncements;
    ghost var start := world.View();
    ghost var rounds;
    ghost var all := socket.Delivers() && socket.isValid;
    hasFailedUnexpectedly, rounds := ReceiveWorker(socket, world);
    if all {
      rounds := rounds + |announcements|;
    }
    StreamIsAnnouncements(announcements, start, rounds);
    heard := if rounds < |announcements| then rounds else |announcements|;
  }

  lemma {:induction false} HearOneMore(w: World, announcements: seq<Announcement>, n: nat)
    requires n < |announcements|
    decreases n
    ensures HearAll(w, announcements[..n + 1]) == Hear(HearAll(w, announcements[..n]), announcements[n])
  {
    hide Hear;
    if n > 0 {
      HearOneMore(Hear(w, announcements[0]), announcements[1..], n - 1);
      assert announcements[..n + 1][1..] == announcements[1..][..n];
      assert announcements[..n][1..] == announcements[1..][..n - 1];
    } else {
      assert announcements[..1][1..] == [] && announcements[..0] == [];
    }
  }
}
