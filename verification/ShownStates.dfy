/** What a client shows of the server's entities: from a session's body to the client's picture. */
module ShownStates {
  import opened ByteOrder
  import opened Protocol
  import opened Streaming
  import opened Metrics
  import opened UdpStreaming
  import opened Worlds
  import opened Announcements
  import CR = ClientReceiver

  /** Session ids of a snapshot: distinct, and not yet wrapped at 32 bits. */
  ghost predicate ProperIds(cs: seq<Client>) {
    && (forall i, j :: 0 <= i < j < |cs| ==> cs[i].id != cs[j].id)
    && (forall i :: 0 <= i < |cs| ==> cs[i].id < 0x1_0000_0000)
  }

  lemma IdOnTheWire(id: nat)
    requires id < 0x1_0000_0000
    ensures Value32(EntityId(id)) == id
  {
    hide Word32, Value32;
    WordValue32(id, 0);
  }

  function Kind(w: World, id: u32): byte {
    if id in w.entities then w.entities[id].entityType else 0
  }

  /** The picture of one entity is the state of its session's body, in position, heading and
      velocity, keeping the type it was announced with. */
  predicate Pictured(w: World, c: Client, kind: byte, bits: real -> bv32) {
    c.id in w.entities &&
    var b := c.session.body;
    w.entities[c.id] ==
    Info(kind, bits(b.positionX), bits(b.positionY), bits(b.heading), bits(b.velocityX), bits(b.velocityY))
  }

  /** Once a tick's entries are seen every playing session is pictured as it is, and all other
      entities as they were. */
  lemma StatesAreShown(w: World, cs: seq<Client>, bits: real -> bv32, id: u32)
    requires ProperIds(cs)
    ensures var w' := CR.SeeAll(w, Entries(cs, bits));
            && (forall i :: 0 <= i < |cs| && cs[i].session.state == Playing && cs[i].id == id ==>
                  Pictured(w', cs[i], Kind(w, id), bits))
            && ((forall i :: 0 <= i < |cs| && cs[i].session.state == Playing ==> cs[i].id != id) ==> SameAt(w, w', id))
            && w'.own == w.own
  {
    hide CR.SeeAll, Entries, Pictured, SameAt, Kind;
    forall i | 0 <= i < |cs| && cs[i].session.state == Playing && cs[i].id == id
      ensures Pictured(CR.SeeAll(w, Entries(cs, bits)), cs[i], Kind(w, id), bits)
    {
      PlayingIsShown(w, cs, bits, i);
    }
    if forall i :: 0 <= i < |cs| && cs[i].session.state == Playing ==> cs[i].id != id {
      OthersStay(w, cs, bits, id);
    }
    KindsStay(w, cs, bits, id);
  }

  lemma LastEntry(w: World, cs: seq<Client>, bits: real -> bv32)
    requires cs != []
    ensures var n := |cs| - 1;
            var before := CR.SeeAll(w, Entries(cs[..n], bits));
            CR.SeeAll(w, Entries(cs, bits)) ==
            if cs[n].session.state == Playing then CR.SeeEntry(before, EntryOf(cs[n], bits)) else before
  {
    hide EntryOf, CR.SeeEntry;
    var es, e := Entries(cs[..|cs| - 1], bits), EntryOf(cs[|cs| - 1], bits);
    assert (es + [e])[..|es|] == es && es + [] == es;
  }

  lemma {:induction false} KindsStay(w: World, cs: seq<Client>, bits: real -> bv32, id: u32)
    requires forall i :: 0 <= i < |cs| ==> cs[i].id < 0x1_0000_0000
    ensures var w' := CR.SeeAll(w, Entries(cs, bits));
            Kind(w', id) == Kind(w, id) && w'.own == w.own
  {
    hide EntryOf, CR.SeeEntry, Kind;
    if cs != [] {
      var n := |cs| - 1;
      KindsStay(w, cs[..n], bits, id);
      LastEntry(w, cs, bits);
      OneMoreSeen(CR.SeeAll(w, Entries(cs[..n], bits)), cs[n], bits, id);
    }
  }

  lemma {:induction false} OthersStay(w: World, cs: seq<Client>, bits: real -> bv32, id: u32)
    requires forall i :: 0 <= i < |cs| ==> cs[i].id < 0x1_0000_0000
    requires forall i :: 0 <= i < |cs| && cs[i].session.state == Playing ==> cs[i].id != id
    ensures SameAt(w, CR.SeeAll(w, Entries(cs, bits)), id)
  {
    hide EntryOf, CR.SeeEntry, SameAt;
    if cs == [] {
      NothingSeen(w, id);
    } else {
      var n := |cs| - 1;
      OthersStay(w, cs[..n], bits, id);
      LastEntry(w, cs, bits);
      var before := CR.SeeAll(w, Entries(cs[..n], bits));
      OneMoreSeen(before, cs[n], bits, id);
      SameTwice(w, before, CR.SeeEntry(before, EntryOf(cs[n], bits)), id);
    }
  }

  lemma {:induction false} PlayingIsShown(w: World, cs: seq<Client>, bits: real -> bv32, i: nat)
    requires ProperIds(cs)
    requires i < |cs| && cs[i].session.state == Playing
    ensures Pictured(CR.SeeAll(w, Entries(cs, bits)), cs[i], Kind(w, cs[i].id), bits)
  {
    hide EntryOf, CR.SeeEntry, SameAt, Pictured, Kind;
    var n, id := |cs| - 1, cs[i].id;
    var before := CR.SeeAll(w, Entries(cs[..n], bits));
    LastEntry(w, cs, bits);
    OneMoreSeen(before, cs[n], bits, id);
    if i == n {
      KindsStay(w, cs[..n], bits, id);
    } else {
      PlayingIsShown(w, cs[..n], bits, i);
      StillPictured(before, CR.SeeEntry(before, EntryOf(cs[n], bits)), cs[i], Kind(w, id), bits);
    }
  }

  lemma NothingSeen(w: World, id: u32)
    ensures SameAt(w, w, id)
  {
  }

  lemma SameTwice(w: World, w1: World, w2: World, id: u32)
    ensures SameAt(w, w1, id) && SameAt(w1, w2, id) ==> SameAt(w, w2, id)
  {
  }

  lemma StillPictured(w: World, w': World, c: Client, kind: byte, bits: real -> bv32)
    requires c.id < 0x1_0000_0000
    ensures SameAt(w, w', c.id) && Pictured(w, c, kind, bits) ==> Pictured(w', c, kind, bits)
  {
  }

  lemma OneMoreSeen(w: World, c: Client, bits: real -> bv32, id: u32)
    requires c.id < 0x1_0000_0000
    ensures var w' := CR.SeeEntry(w, EntryOf(c, bits));
            && (c.id == id ==> Pictured(w', c, Kind(w, id), bits))
            && (c.id != id ==> SameAt(w, w', id))
            && Kind(w', id) == Kind(w, id) && w'.own == w.own
  {
    hide Value32, Word32;
    IdOnTheWire(c.id);
    var e := EntryOf(c, bits);
    StateInFull(w, e.entityId, e.positionX, e.positionY, e.heading, e.velocityX, e.velocityY, id);
  }

  /** End to end over one datagram: an active client that receives what the server sends a recipient
      on a tick with at most 84 playing entities shows each of them just as the server has it. */
  lemma DatagramShowsStates(client: CR.Client, recipient: Client, cs: seq<Client>, timestamp: bv64,
                            bits: real -> bv32, now: int, i: nat)
    requires client.active && ProperIds(cs) && |Entries(cs, bits)| <= 84
    requires i < |cs| && cs[i].session.state == Playing
    ensures var d := OwnDatagram(recipient, EntityStateBatch(0, timestamp, Entries(cs, bits)));
            Pictured(CR.Received(client, d.bytes, now).world, cs[i], Kind(client.world, cs[i].id), bits)
  {
    hide CR.Received, StateDatagram, Word64, Value64, Metrics.Apply, CR.SeeAll, Entries, Pictured, Kind;
    var batch := EntityStateBatch(WireId(recipient.session.nextSequenceId + 1), timestamp, Entries(cs, bits));
    CR.BatchFitsUpTo84(client, batch, now);
    StatesAreShown(client.world, cs, bits, cs[i].id);
  }

  /** A Spawn shows its session's entity as a helicopter, where it is and heading where it heads,
      with the velocity already known or none. */
  lemma SpawnIsShown(w: World, c: Client, bits: real -> bv32)
    requires c.id < 0x1_0000_0000
    ensures var w', b := Hear(w, SpawnOf(c, bits)), c.session.body;
            && c.id in w'.entities
            && var i := w'.entities[c.id];
               && i.entityType == 0 && i.positionX == bits(b.positionX) && i.positionY == bits(b.positionY)
               && i.heading == bits(b.heading)
               && (c.id !in w.entities ==> i.velocityX == i.velocityY == 0)
               && (c.id in w.entities ==>
                     i.velocityX == w.entities[c.id].velocityX && i.velocityY == w.entities[c.id].velocityY)
  {
    hide Value32, Word32;
    IdOnTheWire(c.id);
    var b := c.session.body;
    SpawnInFull(w, EntityId(c.id), 0, bits(b.positionX), bits(b.positionY), bits(b.heading), 0);
  }
}
