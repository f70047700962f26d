/** The server's announcements (Server/TcpControlServer.cpp): who is sent which Spawn and Despawn,
    in which order, down to the bytes on each control connection. */
module Announcements {
  import opened ByteOrder
  import opened BinarySerializer
  import opened Protocol
  import opened Streaming
  import opened Tcp
  import opened Sessions
  import opened SessionTable
  import opened UdpStreaming
  import opened Worlds
  import opened AnnouncementStream
  import SpawnBroadcast

  const PLAYER_HELICOPTER: byte := 0

  function SpawnOf(c: Client, bits: real -> bv32): Announcement {
    var b := c.session.body;
    Spawn(EntityId(c.id), PLAYER_HELICOPTER, bits(b.positionX), bits(b.positionY), bits(b.heading))
  }

  /** The Spawns of everyone but one, in the order of a listing. */
  function SpawnsOfOthers(cs: seq<Client>, except: nat, bits: real -> bv32): (spawns: seq<Announcement>)
    ensures |spawns| <= |cs|
  {
    if cs == [] then []
    else
      var c := cs[|cs| - 1];
      var before := SpawnsOfOthers(cs[..|cs| - 1], except, bits);
      if c.id == except then before else before + [SpawnOf(c, bits)]
  }

  function SessionIds(cs: seq<Client>): (ids: seq<nat>)
    ensures |ids| == |cs|
  {
    seq(|cs|, i requires 0 <= i < |cs| => cs[i].id)
  }

  /** The announcement carries the message of the broadcast protocol. */
  predicate Carries(a: Announcement, m: SpawnBroadcast.Message) {
    m.id < TWO_TO_32 && a.id == Word32(m.id) && (a.Spawn? <==> m.SpawnOf?)
  }

  lemma {:induction false} SpawnsSnoc(order: seq<nat>, c: nat, except: nat)
    ensures SpawnBroadcast.Spawns(order + [c], except) ==
            SpawnBroadcast.Spawns(order, except) +
            if c == except then [] else [SpawnBroadcast.SpawnOf(SpawnBroadcast.EntityId(c))]
    decreases order
  {
    if order == [] {
      assert [c][1..] == [];
    } else {
      SpawnsSnoc(order[1..], c, except);
      assert (order + [c])[1..] == order[1..] + [c];
    }
  }

  lemma NoSpawns(except: nat)
    ensures SpawnBroadcast.Spawns([], except) == []
  {
  }

  lemma SpawnCarries(c: Client, bits: real -> bv32)
    ensures Carries(SpawnOf(c, bits), SpawnBroadcast.SpawnOf(SpawnBroadcast.EntityId(c.id)))
  {
  }

  /** The Spawns sent are, one for one, those of the broadcast protocol for the same order. */
  lemma {:induction false} SpawnsCarryProtocol(cs: seq<Client>, except: nat, bits: real -> bv32)
    ensures var spawns, messages := SpawnsOfOthers(cs, except, bits), SpawnBroadcast.Spawns(SessionIds(cs), except);
            |spawns| == |messages| && forall i :: 0 <= i < |spawns| ==> Carries(spawns[i], messages[i])
  {
    hide Carries, SpawnOf, SpawnBroadcast.EntityId, SpawnBroadcast.Spawns;
    if cs == [] {
      assert SessionIds(cs) == [];
      NoSpawns(except);
    } else {
      var p, c := cs[..|cs| - 1], cs[|cs| - 1];
      SpawnsCarryProtocol(p, except, bits);
      SpawnsSnoc(SessionIds(p), c.id, except);
      SpawnCarries(c, bits);
      assert SessionIds(cs) == SessionIds(p) + [c.id];
    }
  }

  // ----- streams of announcements -----

  lemma AnnouncementSize(a: Announcement)
    ensures |PutAnnouncement(a, [])| == if a.Spawn? then 18 else 5
  {
  }

  lemma SpawnSplit(p: EntitySpawn, rest: seq<byte>)
    ensures PutEntitySpawn(p, []) + rest == PutEntitySpawn(p, rest)
  {
    hide AppEntitySpawn, PutEntitySpawn;
    AppPutEntitySpawn([], p, []);
    AppPutEntitySpawn([], p, rest);
    assert AppEntitySpawn([], p) + [] == AppEntitySpawn([], p);
    assert [] + PutEntitySpawn(p, []) == PutEntitySpawn(p, []);
    assert [] + PutEntitySpawn(p, rest) == PutEntitySpawn(p, rest);
  }

  lemma PutAnnouncementSplit(a: Announcement, rest: seq<byte>)
    ensures PutAnnouncement(a, []) + rest == PutAnnouncement(a, rest)
  {
    hide PutEntitySpawn, BigEndian32;
    match a
    case Spawn(id, entityType, x, y, heading) =>
      SpawnSplit(EntitySpawn(id, entityType, x, y, heading), rest);
    case Despawn(id) =>
      assert Put32(id, []) + rest == Put32(id, rest);
  }

  lemma {:induction false} AnnouncementsGrow(announcements: seq<Announcement>, a: Announcement)
    ensures PutAnnouncements(announcements, []) + PutAnnouncement(a, []) == PutAnnouncements(announcements + [a], [])
  {
    hide PutAnnouncement;
    if announcements == [] {
      assert [a][1..] == [];
    } else {
      var rest := PutAnnouncements(announcements[1..], []);
      AnnouncementsGrow(announcements[1..], a);
      assert (announcements + [a])[1..] == announcements[1..] + [a];
      PutAnnouncementSplit(announcements[0], rest);
      PutAnnouncementSplit(announcements[0], rest + PutAnnouncement(a, []));
    }
  }

  // ----- sending -----

  /** The session's connection takes the next n bytes. */
  ghost predicate Takes(s: ClientSession, n: nat)
    reads s.controlSocket
  {
    s.controlSocket.isValid && s.controlSocket.Accepts(n)
  }

  method Send(recipient: ClientSession, bytes: seq<byte>, ghost a: Announcement) returns (ok: bool)
    requires bytes + [] == [] + PutAnnouncement(a, [])
    modifies recipient.controlSocket`outgoing, recipient.controlSocket`acceptances
    ensures ok ==> recipient.controlSocket.outgoing == old(recipient.controlSocket.outgoing) + PutAnnouncement(a, [])
    ensures old(Takes(recipient, 18)) ==> ok
    ensures old(Takes(recipient, 5)) && a.Despawn? ==> ok
    ensures old(recipient.controlSocket.Willing()) ==> recipient.controlSocket.Willing()
    ensures old(recipient.controlSocket.Willing()) ==>
              |recipient.controlSocket.acceptances| + 18 >= old(|recipient.controlSocket.acceptances|)
  {
    hide PutAnnouncement;
    AnnouncementSize(a);
    assert bytes == bytes + [] && [] + PutAnnouncement(a, []) == PutAnnouncement(a, []);
    ok := recipient.controlSocket.SendAll(bytes);
  }

  /** A failure is only logged. */
  method SendEntitySpawn(recipient: ClientSession, p: EntitySpawn) returns (ok: bool)
    modifies recipient.controlSocket`outgoing, recipient.controlSocket`acceptances
    ensures var a := Spawn(p.entityId, p.entityType, p.positionX, p.positionY, p.heading);
            ok ==> recipient.controlSocket.outgoing == old(recipient.controlSocket.outgoing) + PutAnnouncement(a, [])
    ensures old(Takes(recipient, 18)) ==> ok
    ensures old(recipient.controlSocket.Willing()) ==> recipient.controlSocket.Willing()
    ensures old(recipient.controlSocket.Willing()) ==>
              |recipient.controlSocket.acceptances| + 18 >= old(|recipient.controlSocket.acceptances|)
  {
    hide App8, AppEntitySpawn, PutEntitySpawn, Put8;
    var writer := new BinaryWriter(true);
    writer.WriteUInt8(ENTITY_SPAWN);
    SerializeEntitySpawn(writer, p);
    AppPutEntitySpawn(App8([], ENTITY_SPAWN), p, []);
    AppPut8([], ENTITY_SPAWN, PutEntitySpawn(p, []));
    ok := Send(recipient, writer.buffer, Spawn(p.entityId, p.entityType, p.positionX, p.positionY, p.heading));
  }

  method SendEntityDespawn(recipient: ClientSession, entityId: bv32) returns (ok: bool)
    modifies recipient.controlSocket`outgoing, recipient.controlSocket`acceptances
    ensures ok ==> recipient.controlSocket.outgoing ==
                   old(recipient.controlSocket.outgoing) + PutAnnouncement(Despawn(entityId), [])
    ensures old(Takes(recipient, 5)) ==> ok
  {
    hide App8, App32, Put32, Put8;
    var writer := new BinaryWriter(true);
    writer.WriteUInt8(ENTITY_DESPAWN);
    writer.WriteUInt32(entityId);
    AppPut32(App8([], ENTITY_DESPAWN), entityId, []);
    AppPut8([], ENTITY_DESPAWN, Put32(entityId, []));
    ok := Send(recipient, writer.buffer, Despawn(entityId));
  }

  // ----- broadcasting -----

  /** The snapshot lists the sessions of the table, each once, each with its own connection. */
  ghost predicate Lists(sessions: seq<ClientSession>, manager: SessionManager)
    reads manager
  {
    && (forall id :: id in manager.sessions ==> manager.sessions[id] in sessions)
    && (forall i :: 0 <= i < |sessions| ==>
          sessions[i].sessionId in manager.sessions && manager.sessions[sessions[i].sessionId] == sessions[i])
    && (forall i, j :: 0 <= i < j < |sessions| ==> sessions[i].sessionId != sessions[j].sessionId)
  }

  ghost predicate OwnSockets(manager: SessionManager)
    reads manager
  {
    forall id, id' :: id in manager.sessions && id' in manager.sessions && id != id' ==>
      manager.sessions[id].controlSocket != manager.sessions[id'].controlSocket
  }

  /** The connections of all listed sessions but one. */
  function OtherSockets(sessions: seq<ClientSession>, except: nat): set<TcpSocket> {
    set i | 0 <= i < |sessions| && sessions[i].sessionId != except :: sessions[i].controlSocket
  }

  method BuildEntitySpawnPayload(session: ClientSession, bits: real -> bv32) returns (p: EntitySpawn)
    ensures Spawn(p.entityId, p.entityType, p.positionX, p.positionY, p.heading) == SpawnOf(ClientOf(session), bits)
  {
    p := EntitySpawn(EntityId(session.sessionId), PLAYER_HELICOPTER,
                     bits(session.positionX), bits(session.positionY), bits(session.heading));
  }

  lemma OneMoreSpawn(cs: seq<Client>, k: nat, except: nat, first: Announcement, bits: real -> bv32)
    requires k < |cs|
    ensures var before := PutAnnouncements([first] + SpawnsOfOthers(cs[..k], except, bits), []);
            PutAnnouncements([first] + SpawnsOfOthers(cs[..k + 1], except, bits), []) ==
            if cs[k].id == except then before else before + PutAnnouncement(SpawnOf(cs[k], bits), [])
  {
    hide SpawnOf, PutAnnouncement, PutAnnouncements;
    assert cs[..k + 1][..k] == cs[..k];
    var others, a := SpawnsOfOthers(cs[..k], except, bits), SpawnOf(cs[k], bits);
    if cs[k].id != except {
      AnnouncementsGrow([first] + others, a);
      assert ([first] + others) + [a] == [first] + (others + [a]);
    }
  }

  /** The newcomer is sent its own Spawn first and then everyone else's. */
  method Introduce(newSession: ClientSession, sessions: seq<ClientSession>, bits: real -> bv32, ghost cs: seq<Client>)
    requires Shows(sessions, cs)
    modifies newSession.controlSocket`outgoing, newSession.controlSocket`acceptances
    ensures old(Takes(newSession, 18 * (|cs| + 1))) ==>
              newSession.controlSocket.outgoing ==
              old(newSession.controlSocket.outgoing) +
              PutAnnouncements([SpawnOf(ClientOf(newSession), bits)] + SpawnsOfOthers(cs, newSession.sessionId, bits), [])
  {
    hide SpawnOf, PutAnnouncement, PutAnnouncements, SpawnsOfOthers, EntityId, ClientOf, TcpSocket.Willing;
    ghost var takes := Takes(newSession, 18 * (|cs| + 1));
    var own := BuildEntitySpawnPayload(newSession, bits);
    ghost var first := SpawnOf(ClientOf(newSession), bits);
    var ok := SendEntitySpawn(newSession, own);
    OnlyOne(first);
    SendOthers(newSession, sessions, bits, cs, old(newSession.controlSocket.outgoing), first, takes);
  }

  lemma OnlyOne(a: Announcement)
    ensures PutAnnouncements([a], []) == PutAnnouncement(a, [])
  {
    hide PutAnnouncement;
    assert [a][1..] == [];
  }

  lemma SameId(s: ClientSession)
    ensures ClientOf(s).id == s.sessionId
  {
  }

  method SendOthers(newSession: ClientSession, sessions: seq<ClientSession>, bits: real -> bv32,
                    ghost cs: seq<Client>, ghost start: seq<byte>, ghost first: Announcement, ghost takes: bool)
    requires Shows(sessions, cs)
    requires takes ==> Takes(newSession, 18 * |cs|)
    requires takes ==> newSession.controlSocket.outgoing == start + PutAnnouncements([first], [])
    modifies newSession.controlSocket`outgoing, newSession.controlSocket`acceptances
    ensures takes ==>
              newSession.controlSocket.outgoing ==
              start + PutAnnouncements([first] + SpawnsOfOthers(cs, newSession.sessionId, bits), [])
  {
    hide SpawnOf, PutAnnouncement, PutAnnouncements, EntityId, ClientOf, TcpSocket.Willing;
    assert [first] + SpawnsOfOthers(cs[..0], newSession.sessionId, bits) == [first];
    hide SpawnsOfOthers;
    for k := 0 to |sessions|
      invariant takes ==> Takes(newSession, 18 * (|cs| - k))
      invariant takes ==>
                  newSession.controlSocket.outgoing ==
                  start + PutAnnouncements([first] + SpawnsOfOthers(cs[..k], newSession.sessionId, bits), [])
    {
      assert ClientOf(sessions[k]) == cs[k];
      OneMoreSpawn(cs, k, newSession.sessionId, first, bits);
      SameId(sessions[k]);
      if sessions[k].sessionId != newSession.sessionId {
        var payload := BuildEntitySpawnPayload(sessions[k], bits);
        var ok := SendEntitySpawn(newSession, payload);
      }
    }
    assert cs[..|sessions|] == cs;
  }

  /** Everyone else is sent the newcomer's Spawn. */
  method Announce(newSession: ClientSession, sessions: seq<ClientSession>, bits: real -> bv32)
    requires forall i, j :: 0 <= i < j < |sessions| ==> sessions[i].controlSocket != sessions[j].controlSocket
    modifies OtherSockets(sessions, newSession.sessionId)
    ensures forall i :: 0 <= i < |sessions| && sessions[i].sessionId != newSession.sessionId ==>
              Heard(sessions[i], SpawnOf(ClientOf(newSession), bits), 18)
  {
    hide SpawnOf, PutAnnouncement, EntityId;
    for k := 0 to |sessions|
      invariant forall i :: 0 <= i < k && sessions[i].sessionId != newSession.sessionId ==>
                  Heard(sessions[i], SpawnOf(ClientOf(newSession), bits), 18)
      invariant forall i :: k <= i < |sessions| ==>
                  var socket := sessions[i].controlSocket;
                  && socket.outgoing == old(socket.outgoing)
                  && socket.acceptances == old(socket.acceptances)
                  && socket.isValid == old(socket.isValid)
    {
      if sessions[k].sessionId != newSession.sessionId {
        var own := BuildEntitySpawnPayload(newSession, bits);
        var ok := SendEntitySpawn(sessions[k], own);
      }
    }
  }

  /** Since the method began the session has been sent exactly this, if its connection took it. */
  twostate predicate Heard(s: ClientSession, a: Announcement, size: nat)
    reads s.controlSocket
  {
    old(Takes(s, size)) ==> s.controlSocket.outgoing == old(s.controlSocket.outgoing) + PutAnnouncement(a, [])
  }

  ghost function Listing(sessions: seq<ClientSession>): (cs: seq<Client>)
    reads sessions
    ensures Shows(sessions, cs)
  {
    if sessions == [] then [] else Listing(sessions[..|sessions| - 1]) + [ClientOf(sessions[|sessions| - 1])]
  }

  /** Every session of the table, once. */
  ghost predicate ListsAll(cs: seq<Client>, manager: SessionManager)
    reads manager, manager.sessions.Values
  {
    && (forall i, j :: 0 <= i < j < |cs| ==> cs[i].id != cs[j].id)
    && (forall i :: 0 <= i < |cs| ==> cs[i].id in manager.sessions && cs[i] == ClientOf(manager.sessions[cs[i].id]))
    && (forall id :: id in manager.sessions ==> ClientOf(manager.sessions[id]) in cs)
  }

  lemma ListingIsAll(sessions: seq<ClientSession>, cs: seq<Client>, manager: SessionManager)
    requires Lists(sessions, manager) && Shows(sessions, cs)
    ensures ListsAll(cs, manager)
  {
    forall i, j | 0 <= i < j < |cs|
      ensures cs[i].id != cs[j].id
    {
      assert cs[i] == ClientOf(sessions[i]) && cs[j] == ClientOf(sessions[j]);
    }
    forall id | id in manager.sessions
      ensures ClientOf(manager.sessions[id]) in cs
    {
      var i :| 0 <= i < |sessions| && sessions[i] == manager.sessions[id];
      assert cs[i] == ClientOf(sessions[i]);
    }
  }

  method Snapshot(manager: SessionManager) returns (sessions: seq<ClientSession>, ghost cs: seq<Client>)
    requires manager.Valid()
    ensures Lists(sessions, manager) && Shows(sessions, cs) && ListsAll(cs, manager)
  {
    hide ClientOf;
    sessions := manager.GetSessionsSnapshot();
    cs := Listing(sessions);
    ListingIsAll(sessions, cs, manager);
  }

  lemma ListedOnce(sessions: seq<ClientSession>, manager: SessionManager, newSession: ClientSession)
    requires Lists(sessions, manager) && OwnSockets(manager)
    requires newSession.sessionId in manager.sessions && manager.sessions[newSession.sessionId] == newSession
    ensures forall i, j :: 0 <= i < j < |sessions| ==> sessions[i].controlSocket != sessions[j].controlSocket
    ensures forall i :: 0 <= i < |sessions| ==> sessions[i] in manager.sessions.Values
    ensures newSession.controlSocket !in OtherSockets(sessions, newSession.sessionId)
  {
    SocketsDiffer(sessions, manager);
    forall i | 0 <= i < |sessions|
      ensures sessions[i] in manager.sessions.Values
    {
      assert manager.sessions[sessions[i].sessionId] == sessions[i];
    }
    forall i | 0 <= i < |sessions| && sessions[i].sessionId != newSession.sessionId
      ensures sessions[i].controlSocket != newSession.controlSocket
    {
      assert manager.sessions[sessions[i].sessionId] == sessions[i];
    }
  }

  lemma SocketsDiffer(sessions: seq<ClientSession>, manager: SessionManager)
    requires Lists(sessions, manager) && OwnSockets(manager)
    ensures forall i, j :: 0 <= i < j < |sessions| ==> sessions[i].controlSocket != sessions[j].controlSocket
  {
    forall i, j | 0 <= i < j < |sessions|
      ensures sessions[i].controlSocket != sessions[j].controlSocket
    {
      assert manager.sessions[sessions[i].sessionId] == sessions[i];
      assert manager.sessions[sessions[j].sessionId] == sessions[j];
    }
  }

  /** The newcomer hears its own Spawn first and then that of every other session in the table,
      registered or not; every other session hears the newcomer's. */
  method BroadcastSpawnsForNewSession(manager: SessionManager, newSession: ClientSession, bits: real -> bv32)
    returns (ghost cs: seq<Client>)
    requires manager.Valid() && OwnSockets(manager)
    requires newSession.sessionId in manager.sessions && manager.sessions[newSession.sessionId] == newSession
    modifies set s | s in manager.sessions.Values :: s.controlSocket
    ensures ListsAll(cs, manager)
    ensures old(Takes(newSession, 18 * (|cs| + 1))) ==>
              newSession.controlSocket.outgoing ==
              old(newSession.controlSocket.outgoing) +
              PutAnnouncements([SpawnOf(ClientOf(newSession), bits)] + SpawnsOfOthers(cs, newSession.sessionId, bits), [])
    ensures forall id :: id in manager.sessions && id != newSession.sessionId ==>
              Heard(manager.sessions[id], SpawnOf(ClientOf(newSession), bits), 18)
  {
    hide SpawnOf, SpawnsOfOthers, PutAnnouncements, PutAnnouncement, EntityId, ClientOf, ListsAll;
    var sessions;
    sessions, cs := Snapshot(manager);
    ListedOnce(sessions, manager, newSession);
    Introduce(newSession, sessions, bits, cs);
    Announce(newSession, sessions, bits);
  }

  method BroadcastEntityDespawn(manager: SessionManager, entityId: bv32, excludeSessionId: nat)
    requires manager.Valid() && OwnSockets(manager)
    modifies set s | s in manager.sessions.Values && s.sessionId != excludeSessionId :: s.controlSocket
    ensures forall id :: id in manager.sessions && id != excludeSessionId ==>
              Heard(manager.sessions[id], Despawn(entityId), 5)
  {
    hide PutAnnouncement, ClientOf, ListsAll;
    var sessions;
    ghost var cs;
    sessions, cs := Snapshot(manager);
    SocketsDiffer(sessions, manager);
    for k := 0 to |sessions|
      invariant forall i :: 0 <= i < k && sessions[i].sessionId != excludeSessionId ==>
                  Heard(sessions[i], Despawn(entityId), 5)
      invariant forall i :: k <= i < |sessions| ==>
                  var socket := sessions[i].controlSocket;
                  && socket.outgoing == old(socket.outgoing)
                  && socket.acceptances == old(socket.acceptances)
                  && socket.isValid == old(socket.isValid)
    {
      if sessions[k].sessionId != excludeSessionId {
        assert manager.sessions[sessions[k].sessionId] == sessions[k];
        var ok := SendEntityDespawn(sessions[k], entityId);
      }
    }
  }

  /** The end of a control worker: a registered session is despawned at all others, and any
      session leaves the table, is stopped and has its connection closed. */
  method EndWorker(manager: SessionManager, session: ClientSession, registered: bool)
    requires manager.Valid() && OwnSockets(manager)
    requires session.sessionId in manager.sessions && manager.sessions[session.sessionId] == session
    modifies manager, session, set s | s in manager.sessions.Values :: s.controlSocket
    ensures manager.Valid() && manager.sessions == old(manager.sessions) - {session.sessionId}
    ensures session.View() == old(session.View()).(state := Stopped) && session.isControlConnectionClosed
    ensures old(!session.isControlConnectionClosed) ==> !session.controlSocket.isValid
    ensures forall id :: id in manager.sessions ==>
              var s := manager.sessions[id];
              if registered then Heard(s, Despawn(EntityId(session.sessionId)), 5)
              else s.controlSocket.outgoing == old(s.controlSocket.outgoing)
  {
    hide PutAnnouncement, EntityId;
    if registered {
      BroadcastEntityDespawn(manager, EntityId(session.sessionId), session.sessionId);
    }
    manager.RemoveSession(session.sessionId);
  }
}
