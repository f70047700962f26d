/** Every run of a client's connection: calls of Connect and Disconnect, lost links and turns of
    the watchdog, in any order (ClientCore/GameClient.cpp). */
module ConnectionRuns {
  import opened GameClients

  datatype Event =
    | ConnectCall(config: ClientConfig, ok: bool)
    | DisconnectCall
    | LinkLost                                 // the message receiver stops on its own
    | Turn(now: int, ok: bool, later: int)     // one turn of the watchdog

  function Happen(k: Link, e: Event): Link {
    match e
    case ConnectCall(config, ok) => AfterConnect(k, config, ok)
    case DisconnectCall => AfterDisconnect(k)
    case LinkLost => if k.receiver.Present? then k.(receiver := Present(true)) else k
    case Turn(now, ok, later) => AfterPoll(k, now, ok, later)
  }

  ghost function After(run: seq<Event>): Link {
    if run == [] then INITIAL_LINK else Happen(After(run[..|run| - 1]), run[|run| - 1])
  }

  /** Being Connected means having a receiver that a running watchdog looks after. */
  ghost predicate Linked(k: Link) {
    k.state == Connected ==> k.receiver.Present? && k.watchdog
  }

  /** Connect called on a connected client, failing. */
  ghost predicate Spoils(k: Link, e: Event) {
    e.ConnectCall? && !e.ok && k.state == Connected
  }

  /** One event keeps the connection linked unless it is a failing Connect on a connected
      client; it always keeps it safe. */
  lemma LinkedStepIff(k: Link, e: Event)
    requires Safe(k) && Linked(k)
    ensures Safe(Happen(k, e))
    ensures Linked(Happen(k, e)) <==> !Spoils(k, e)
  {
  }

  /** What the user's calls lead to: a successful Connect to a fresh receiver on the configuration
      given, watched; a failed one leaves the state and the configuration but no receiver;
      Disconnect leaves nothing running. */
  lemma CallOutcomes(k: Link, config: ClientConfig)
    requires Safe(k)
    ensures Happen(k, ConnectCall(config, true)).(nextRetry := 0) == Link(Connected, Present(false), config, true, 0)
    ensures Happen(k, ConnectCall(config, false)) == Link(k.state, Absent, k.lastConfig, k.watchdog, k.nextRetry)
    ensures Happen(k, DisconnectCall) == Link(Disconnected, Absent, k.lastConfig, false, k.nextRetry)
  {
  }

  lemma {:induction false} AlwaysSafe(run: seq<Event>)
    ensures Safe(After(run))
  {
    if run != [] {
      AlwaysSafe(run[..|run| - 1]);
    }
  }

  /** Linked after every prefix of the run. */
  ghost predicate LinkedThroughout(run: seq<Event>) {
    Linked(After(run)) && (run != [] ==> LinkedThroughout(run[..|run| - 1]))
  }

  ghost predicate EverSpoiled(run: seq<Event>) {
    run != [] && (EverSpoiled(run[..|run| - 1]) || Spoils(After(run[..|run| - 1]), run[|run| - 1]))
  }

  /** A run stays linked at every point exactly when nobody calls a failing Connect on a
      connected client. */
  lemma {:induction false} LinkedThroughoutIff(run: seq<Event>)
    ensures LinkedThroughout(run) <==> !EverSpoiled(run)
  {
    if run != [] {
      var p := run[..|run| - 1];
      LinkedThroughoutIff(p);
      AlwaysSafe(p);
      assert LinkedThroughout(p) ==> Linked(After(p));
      if Linked(After(p)) {
        LinkedStepIff(After(p), run[|run| - 1]);
      }
    }
  }

  /** Once spoiled, the client says Connected with no receiver, and only another call of Connect
      or Disconnect ever changes anything: the watchdog has nothing to notice. */
  lemma {:induction false} SpoiledStaysSpoiled(k: Link, run: seq<Event>)
    requires Safe(k) && !Linked(k)
    requires forall i :: 0 <= i < |run| ==> run[i].LinkLost? || run[i].Turn?
    ensures k.state == Connected && k.receiver == Absent
    ensures From(k, run) == k
  {
    if run != [] {
      SpoiledStaysSpoiled(k, run[..|run| - 1]);
    }
  }

  ghost function From(k: Link, run: seq<Event>): Link {
    if run == [] then k else Happen(From(k, run[..|run| - 1]), run[|run| - 1])
  }

  /** Such a run exists: connect, then fail to connect again. */
  lemma ConnectOverConnectedSpoils(config: ClientConfig)
    ensures !Linked(After([ConnectCall(config, true), ConnectCall(config, false)]))
  {
    var run := [ConnectCall(config, true), ConnectCall(config, false)];
    assert run[..1][..0] == [];
    assert After(run[..1]) == Happen(INITIAL_LINK, run[0]);
  }

  // ----- which configuration the watchdog uses -----

  ghost predicate EverConnected(run: seq<Event>) {
    exists i :: 0 <= i < |run| && run[i].ConnectCall? && run[i].ok
  }

  /** The configuration of the last successful call of Connect. */
  ghost function LastConfig(run: seq<Event>): ClientConfig
    requires EverConnected(run)
  {
    var e := run[|run| - 1];
    if e.ConnectCall? && e.ok then e.config else LastConfig(run[..|run| - 1])
  }

  /** Unless the client is disconnected a watchdog runs, with the last successful
      configuration, whatever failed since. */
  lemma {:induction false} WatchdogHoldsLastConfig(run: seq<Event>)
    ensures After(run).state != Disconnected ==> After(run).watchdog && EverConnected(run)
    ensures EverConnected(run) ==> After(run).lastConfig == LastConfig(run)
  {
    AlwaysSafe(run);
    if run != [] {
      var p := run[..|run| - 1];
      WatchdogHoldsLastConfig(p);
      AlwaysSafe(p);
      if EverConnected(p) {
        var i :| 0 <= i < |p| && p[i].ConnectCall? && p[i].ok;
        assert run[i] == p[i];
      }
    }
  }

  // ----- when the watchdog tries -----

  /** The clock never runs backwards across the watchdog's turns. */
  ghost predicate Timed(run: seq<Event>) {
    && (forall i :: 0 <= i < |run| && run[i].Turn? ==> run[i].now <= run[i].later)
    && (forall i, j :: 0 <= i < j < |run| && run[i].Turn? && run[j].Turn? ==> run[i].later <= run[j].now)
  }

  /** The watchdog finds the link lost. */
  predicate Notices(k: Link) {
    k.watchdog && k.state == Connected && k.receiver == Present(true)
  }

  /** In turn i the watchdog tried to connect or found the link lost. */
  ghost predicate Acted(run: seq<Event>, i: nat)
    requires i < |run|
  {
    run[i].Turn? && (Retries(After(run[..i]), run[i].now) || Notices(After(run[..i])))
  }

  ghost predicate Waiting(run: seq<Event>) {
    After(run).state == Reconnecting ==>
      forall i :: 0 <= i < |run| && Acted(run, i) ==> After(run).nextRetry >= run[i].now + RECONNECT_INTERVAL
  }

  lemma {:induction false} AlwaysWaiting(run: seq<Event>)
    requires Timed(run)
    ensures Waiting(run)
  {
    if run != [] {
      var last := |run| - 1;
      var p := run[..last];
      AlwaysWaiting(p);
      AlwaysSafe(p);
      if After(run).state == Reconnecting {
        forall i | 0 <= i < |run| && Acted(run, i)
          ensures After(run).nextRetry >= run[i].now + RECONNECT_INTERVAL
        {
          if i < last {
            assert p[..i] == run[..i];
            assert Acted(p, i);
          }
        }
      }
    }
  }

  /** Every attempt of the watchdog comes at least 2 s after every earlier attempt and every
      earlier discovery of a lost link. */
  lemma {:induction false} AttemptsAreSpaced(run: seq<Event>, i: nat, j: nat)
    requires Timed(run) && i < j < |run|
    requires Acted(run, i) && run[j].Turn? && Retries(After(run[..j]), run[j].now)
    ensures run[j].now >= run[i].now + 2_000_000_000
  {
    var p := run[..j];
    assert Timed(p);
    AlwaysWaiting(p);
    assert p[..i] == run[..i];
    assert Acted(p, i);
  }

  // ----- how it recovers -----

  /** When the link of a linked client is lost, the next turn of the watchdog, at t, tears the
      connection down and sets the first attempt for two seconds later. */
  lemma LostLinkIsNoticed(k: Link, t: int, ok: bool, later: int)
    requires Safe(k) && Linked(k) && k.state == Connected
    ensures Happen(Happen(k, LinkLost), Turn(t, ok, later)) ==
            Link(Reconnecting, Absent, k.lastConfig, true, t + 2_000_000_000)
  {
  }

  /** A turn while the link is up, or before the time of the next attempt, changes nothing. */
  lemma TurnInVain(k: Link, t: int, ok: bool, later: int)
    requires (k.state == Connected && k.receiver == Present(false)) || (k.state == Reconnecting && t < k.nextRetry)
    ensures Happen(k, Turn(t, ok, later)) == k
  {
  }

  /** In a run of turns the next attempt is set for two seconds after the last failed attempt, or
      after the discovery of the loss, at the latest. */
  ghost predicate DueByNow(run: seq<Event>, now: int) {
    forall i :: 0 <= i < |run| && Acted(run, i) ==> run[i].later + 2_000_000_000 <= now
  }

  lemma {:induction false} RetryIsSet(run: seq<Event>)
    requires Timed(run) && After(run).state == Reconnecting
    ensures exists i :: 0 <= i < |run| && Acted(run, i) && After(run).nextRetry <= run[i].later + 2_000_000_000
  {
    AlwaysSafe(run);
    if run != [] {
      var last := |run| - 1;
      var p := run[..last];
      AlwaysSafe(p);
      if Acted(run, last) && After(run).nextRetry <= run[last].later + 2_000_000_000 {
      } else {
        RetryIsSet(p);
        var i :| 0 <= i < |p| && Acted(p, i) && After(p).nextRetry <= p[i].later + 2_000_000_000;
        assert p[..i] == run[..i] && p[i] == run[i];
        assert Acted(run, i);
      }
    }
  }

  /** Every turn of the watchdog that finds the client reconnecting, two seconds or more after all
      that it tried or discovered before, makes an attempt with the last configuration: success
      ends connected with a fresh receiver, failure sets the next attempt two seconds on. */
  lemma DueTurnsRetry(run: seq<Event>, t: int, ok: bool, later: int)
    requires Timed(run) && After(run).state == Reconnecting && DueByNow(run, t)
    ensures var k, k' := After(run), Happen(After(run), Turn(t, ok, later));
            && k.watchdog
            && k' == if ok then Link(Connected, Present(false), k.lastConfig, true, k.nextRetry)
                     else Link(Reconnecting, Absent, k.lastConfig, true, later + 2_000_000_000)
  {
    AlwaysSafe(run);
    RetryIsSet(run);
  }

  /** When the last of some failed attempts had failed, the first coming after `discovered`. */
  function LastFailure(discovered: int, failures: seq<Event>): int {
    if failures != [] && failures[|failures| - 1].Turn? then failures[|failures| - 1].later else discovered
  }

  /** Attempts that fail, each two seconds or more after the failure of the one before. */
  ghost predicate KeepFailing(discovered: int, failures: seq<Event>) {
    failures == [] ||
    (var before, e := failures[..|failures| - 1], failures[|failures| - 1];
     && KeepFailing(discovered, before)
     && e.Turn? && !e.ok && e.now >= LastFailure(discovered, before) + 2_000_000_000)
  }

  /** A lost link is restored: discovered at t, then after any number of failed attempts the first
      one that succeeds, two seconds or more after the last failure, ends connected again. */
  lemma {:induction false} LostLinkIsRestored(k: Link, t: int, failures: seq<Event>, now: int)
    requires Safe(k) && Linked(k) && k.state == Connected
    requires KeepFailing(t, failures) && now >= LastFailure(t, failures) + 2_000_000_000
    ensures var lost := Happen(Happen(k, LinkLost), Turn(t, false, t));
            var waiting := From(lost, failures);
            && waiting == Link(Reconnecting, Absent, k.lastConfig, true, LastFailure(t, failures) + 2_000_000_000)
            && Happen(waiting, Turn(now, true, now)) ==
               Link(Connected, Present(false), k.lastConfig, true, waiting.nextRetry)
  {
    LostLinkIsNoticed(k, t, false, t);
    if failures != [] {
      var n := |failures| - 1;
      LostLinkIsRestored(k, t, failures[..n], failures[n].now);
    }
  }

  /** After Disconnect, with no successful Connect, the client stays disconnected: no receiver,
      no watchdog, no attempts. */
  lemma {:induction false} OnlyConnectLeavesDisconnected(k: Link, run: seq<Event>)
    requires Safe(k)
    requires forall i :: 0 <= i < |run| && run[i].ConnectCall? ==> !run[i].ok
    ensures var k' := From(AfterDisconnect(k), run); k'.state == Disconnected && k'.receiver == Absent && !k'.watchdog
  {
    if run != [] {
      OnlyConnectLeavesDisconnected(k, run[..|run| - 1]);
    }
  }
}
