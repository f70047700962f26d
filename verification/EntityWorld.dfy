/** The client's picture of the world (ClientCore/EntityWorld.cpp). */
module Worlds {
  import opened ByteOrder
  import opened Protocol

  datatype Own<+K> = Unknown | Mine(id: K)

  /** Everything an entity shows but its id; floats as bit patterns. */
  datatype Info = Info(entityType: byte, positionX: bv32, positionY: bv32, heading: bv32,
                       velocityX: bv32, velocityY: bv32)

  const DEFAULT_INFO := Info(0, 0, 0, 0, 0, 0)

  /** Entities by their id. */
  datatype World = World(entities: map<u32, Info>, own: Own<u32>)

  const EMPTY_WORLD := World(map[], Unknown)

  /** The announcements of the control channel. */
  datatype Announcement =
    | Spawn(id: bv32, entityType: byte, positionX: bv32, positionY: bv32, heading: bv32)
    | Despawn(id: bv32)

  function InfoOf(w: World, id: u32): Info {
    if id in w.entities then w.entities[id] else DEFAULT_INFO
  }

  /** The first Spawn ever heard names the client's own entity; a Spawn keeps the velocity of
      an entity already known. */
  function Hear(w: World, a: Announcement): World {
    var id := Value32(a.id);
    match a
    case Spawn(_, entityType, x, y, heading) =>
      var info := InfoOf(w, id);
      World(w.entities[id := info.(entityType := entityType, positionX := x, positionY := y, heading := heading)],
            if w.own.Unknown? then Mine(id) else w.own)
    case Despawn(_) => World(w.entities - {id}, w.own)
  }

  /** A state update creates the entity if it is not known. */
  function See(w: World, word: bv32, x: bv32, y: bv32, heading: bv32, vx: bv32, vy: bv32): World {
    var id := Value32(word);
    World(w.entities[id := InfoOf(w, id).(positionX := x, positionY := y, heading := heading,
                                          velocityX := vx, velocityY := vy)], w.own)
  }

  function HearAll(w: World, announcements: seq<Announcement>): World
    decreases announcements
  {
    if announcements == [] then w else HearAll(Hear(w, announcements[0]), announcements[1..])
  }

  /** Seen as a set of ids and an own id, an announcement adds or removes one id, and only the
      first Spawn sets the own id; a state update can only add. */
  lemma AnnouncementsMoveIds(w: World, a: Announcement, x: bv32, y: bv32, heading: bv32, vx: bv32, vy: bv32)
    ensures var id := Value32(a.id);
            && Hear(w, a).entities.Keys == (if a.Spawn? then w.entities.Keys + {id} else w.entities.Keys - {id})
            && Hear(w, a).own == (if a.Spawn? && w.own.Unknown? then Mine(id) else w.own)
            && See(w, a.id, x, y, heading, vx, vy).entities.Keys == w.entities.Keys + {id}
            && See(w, a.id, x, y, heading, vx, vy).own == w.own
  {
    hide Value32;
  }

  predicate SameAt(w: World, w': World, id: u32) {
    (id in w.entities <==> id in w'.entities) && (id in w.entities ==> w'.entities[id] == w.entities[id])
  }

  /** A Spawn sets type, position and heading of its entity and leaves it the velocity it had, zero
      for an unknown one; all other entities stay as they are. */
  lemma SpawnInFull(w: World, word: bv32, kind: byte, x: bv32, y: bv32, heading: bv32, other: u32)
    ensures var w', id := Hear(w, Spawn(word, kind, x, y, heading)), Value32(word);
            && id in w'.entities
            && w'.entities[id] ==
               (if id in w.entities
                then Info(kind, x, y, heading, w.entities[id].velocityX, w.entities[id].velocityY)
                else Info(kind, x, y, heading, 0, 0))
            && (other != id ==> SameAt(w, w', other))
  {
    hide Value32;
  }

  /** A Despawn leaves no trace of its entity and all others as they are. */
  lemma DespawnInFull(w: World, word: bv32, other: u32)
    ensures var w', id := Hear(w, Despawn(word)), Value32(word);
            id !in w'.entities && (other != id ==> SameAt(w, w', other))
  {
    hide Value32;
  }

  /** A state update sets position, heading and velocity and leaves the type, 0 for an unknown
      entity; all others stay as they are. */
  lemma StateInFull(w: World, word: bv32, x: bv32, y: bv32, heading: bv32, vx: bv32, vy: bv32, other: u32)
    ensures var w', id := See(w, word, x, y, heading, vx, vy), Value32(word);
            && id in w'.entities
            && w'.entities[id] == Info(if id in w.entities then w.entities[id].entityType else 0, x, y, heading, vx, vy)
            && (other != id ==> SameAt(w, w', other))
  {
    hide Value32;
  }

  class EntityWorld {
    var entities: map<u32, Info>
    var hasMyEntityId: bool
    var myEntityId: u32

    function View(): World
      reads this
    {
      World(entities, if hasMyEntityId then Mine(myEntityId) else Unknown)
    }

    constructor ()
      ensures View() == EMPTY_WORLD
    {
      entities, hasMyEntityId, myEntityId := map[], false, 0;
    }

    method OnSpawn(payload: EntitySpawn)
      modifies this
      ensures View() == Hear(old(View()), Spawn(payload.entityId, payload.entityType, payload.positionX,
                                                payload.positionY, payload.heading))
    {
      hide Value32;
      var entityId := Value32(payload.entityId);
      if !hasMyEntityId {
        hasMyEntityId := true;
        myEntityId := entityId;
      }
      var info := if entityId in entities then entities[entityId] else DEFAULT_INFO;
      entities := entities[entityId :=
        info.(entityType := payload.entityType, positionX := payload.positionX,
              positionY := payload.positionY, heading := payload.heading)];
    }

    method OnDespawn(entityId: bv32)
      modifies this
      ensures View() == Hear(old(View()), Despawn(entityId))
    {
      hide Value32;
      entities := entities - {Value32(entityId)};
    }

    method OnState(entry: EntityStateEntry)
      modifies this
      ensures View() == See(old(View()), entry.entityId, entry.positionX, entry.positionY, entry.heading,
                            entry.velocityX, entry.velocityY)
    {
      hide Value32;
      var entityId := Value32(entry.entityId);
      var info := if entityId in entities then entities[entityId] else DEFAULT_INFO;
      entities := entities[entityId :=
        info.(positionX := entry.positionX, positionY := entry.positionY, heading := entry.heading,
              velocityX := entry.velocityX, velocityY := entry.velocityY)];
    }

    method TryGetMyEntityId() returns (ok: bool, entityId: u32)
      ensures ok <==> View().own.Mine?
      ensures ok ==> View().own == Mine(entityId)
    {
      ok, entityId := hasMyEntityId, if hasMyEntityId then myEntityId else 0;
    }

    method Clear()
      modifies this
      ensures View() == EMPTY_WORLD
    {
      entities, hasMyEntityId, myEntityId := map[], false, 0;
    }
  }
}
