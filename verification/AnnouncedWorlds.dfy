/** From the server's broadcasts to what a client shows, down to the bytes in between. */
module AnnouncedWorlds {
  import opened ByteOrder
  import opened Tcp
  import opened UdpStreaming
  import opened Worlds
  import opened AnnouncementStream
  import opened Announcements
  import SB = SpawnBroadcast

  /** A stream of announcements carries the broadcast protocol's messages, one for one. */
  ghost predicate CarriesAll(announcements: seq<Announcement>, ms: seq<SB.Message>) {
    |announcements| == |ms| && forall i :: 0 <= i < |ms| ==> Carries(announcements[i], ms[i])
  }

  /** What a newcomer is sent, and everyone else, on its registration. */
  lemma IntroductionCarries(cs: seq<Client>, own: Client, bits: real -> bv32)
    ensures CarriesAll([SpawnOf(own, bits)] + SpawnsOfOthers(cs, own.id, bits),
                       [SB.SpawnOf(SB.EntityId(own.id))] + SB.Spawns(SessionIds(cs), own.id))
    ensures CarriesAll([SpawnOf(own, bits)], [SB.SpawnOf(SB.EntityId(own.id))])
  {
    hide Carries, SpawnOf, SpawnsOfOthers, SB.Spawns, SB.EntityId, SessionIds;
    SpawnCarries(own, bits);
    SpawnsCarryProtocol(cs, own.id, bits);
  }

  lemma DespawnCarries(id: nat)
    ensures CarriesAll([Despawn(EntityId(id))], [SB.DespawnOf(SB.EntityId(id))])
  {
  }

  // ----- hearing a stream -----

  /** The world shows exactly the known ids, and the known own id. */
  ghost predicate Pictures(w: World, k: SB.Known) {
    && w.entities.Keys == k.ids
    && match k.own
       case Unknown => w.own == Unknown
       case Mine(id) => w.own.Mine? && w.own.id == id
  }

  lemma HearingPictures(w: World, k: SB.Known, a: Announcement, m: SB.Message)
    requires Pictures(w, k) && Carries(a, m)
    ensures Pictures(Hear(w, a), SB.HearId(k, m))
  {
    hide Word32, Value32;
    WordValue32(m.id, 0);
    assert Value32(a.id) == m.id;
  }

  /** Hearing announcements is replaying the messages they carry. */
  lemma {:induction false} HearAllPictures(announcements: seq<Announcement>, ms: seq<SB.Message>)
    requires CarriesAll(announcements, ms)
    ensures Pictures(HearAll(EMPTY_WORLD, announcements), SB.Replay(SB.NOTHING, ms))
  {
    hide Carries, Hear, SB.HearId;
    if ms == [] {
      NothingPictures();
    } else {
      var n := |ms| - 1;
      HearAllPictures(announcements[..n], ms[..n]);
      HearOneMore(EMPTY_WORLD, announcements, n);
      assert announcements[..n + 1] == announcements;
      HearingPictures(HearAll(EMPTY_WORLD, announcements[..n]), SB.Replay(SB.NOTHING, ms[..n]), announcements[n], ms[n]);
      hide Pictures;
    }
  }

  lemma NothingPictures()
    ensures Pictures(EMPTY_WORLD, SB.NOTHING)
  {
  }

  // ----- what the server has sent -----

  /** A step of the server, as opposed to one of a client. */
  predicate ByServer(step: SB.Step) {
    step.Accept? || step.Register? || step.Leave?
  }

  ghost predicate AllByServer(steps: seq<SB.Step>) {
    forall i :: 0 <= i < |steps| ==> ByServer(steps[i])
  }

  /** While no client has read anything, what is on its way to one is all it was ever sent. */
  ghost predicate Unread(s: SB.State) {
    forall c :: c in s.members ==> s.members[c].world == SB.NOTHING
  }

  lemma {:induction false} ServerRunsAreUnread(s: SB.State, steps: seq<SB.Step>, s': SB.State)
    requires Unread(s) && SB.RunsTo(s, steps, s') && AllByServer(steps)
    ensures Unread(s')
    decreases steps
  {
    if steps != [] {
      assert ByServer(steps[0]);
      ServerRunsAreUnread(SB.Take(s, steps[0]), steps[1..], s');
    }
  }

  /** End to end: after any safe run of the server with fewer than 2^32 sessions, a registered
      client that reads the bytes of all it was sent, however they are cut up, shows exactly the
      registered sessions' entities and knows its own. */
  method CatchUp(socket: TcpSocket, world: EntityWorld, ghost steps: seq<SB.Step>, ghost s: SB.State,
                 ghost c: nat, ghost announcements: seq<Announcement>)
    requires AllByServer(steps) && SB.RunsTo(SB.EMPTY, steps, s) && SB.SafeRun(SB.EMPTY, steps)
    requires s.next <= TWO_TO_32 && c in s.members && s.members[c].registered
    requires CarriesAll(announcements, s.members[c].pending)
    requires socket.incoming == PutAnnouncements(announcements, []) && socket.Delivers() && socket.isValid
    requires world.View() == EMPTY_WORLD
    modifies socket, world
    ensures world.View().entities.Keys == SB.Live(s)
    ensures world.View().own.Mine? && world.View().own.id == SB.EntityId(c)
  {
    hide PutAnnouncements, HearAll;
    var failed;
    ghost var heard;
    failed, heard := HearServer(socket, world, announcements);
    assert announcements[..heard] == announcements;
    HearAllPictures(announcements, s.members[c].pending);
    Expectation(steps, s, c);
  }

  lemma Expectation(steps: seq<SB.Step>, s: SB.State, c: nat)
    requires AllByServer(steps) && SB.RunsTo(SB.EMPTY, steps, s) && SB.SafeRun(SB.EMPTY, steps)
    requires s.next <= TWO_TO_32 && c in s.members && s.members[c].registered
    ensures SB.Replay(SB.NOTHING, s.members[c].pending) == SB.Known(SB.Live(s), Mine(SB.EntityId(c)))
  {
    SB.EmptyIsConverged();
    SB.SafeRunsConverge(SB.EMPTY, steps, s);
    ServerRunsAreUnread(SB.EMPTY, steps, s);
    hide SB.RunsTo, SB.SafeRun, SB.Live;
  }
}
