/** The server's table of sessions (Server/SessionManager.cpp). */
module SessionTable {
  import opened Streaming
  import opened Sessions

  class SessionManager {
    var sessions: map<nat, ClientSession>

    ghost predicate Valid()
      reads this
    {
      forall id :: id in sessions ==> sessions[id].sessionId == id
    }

    constructor ()
      ensures sessions == map[] && Valid()
    {
      sessions := map[];
    }

    method AddSession(session: ClientSession)
      requires Valid()
      modifies this
      ensures Valid() && sessions == old(sessions)[session.sessionId := session]
    {
      sessions := sessions[session.sessionId := session];
    }

    /** The session leaves the table first and is stopped afterwards. */
    method RemoveSession(sessionId: nat)
      requires Valid()
      modifies this, if sessionId in sessions then {sessions[sessionId], sessions[sessionId].controlSocket} else {}
      ensures Valid() && sessions == old(sessions) - {sessionId}
      ensures sessionId in old(sessions) ==>
                var s := old(sessions)[sessionId];
                s.View() == old(s.View()).(state := Stopped) && s.isControlConnectionClosed &&
                s.controlSocket.isValid == (old(s.isControlConnectionClosed) && old(s.controlSocket.isValid))
    {
      if sessionId in sessions {
        var sessionToRemove := sessions[sessionId];
        sessions := sessions - {sessionId};
        sessionToRemove.StopSession();
      }
    }

    function GetSession(sessionId: nat): (session: ClientSession?)
      requires Valid()
      reads this
      ensures session != null ==> sessionId in sessions && session == sessions[sessionId] && session.sessionId == sessionId
      ensures session == null ==> sessionId !in sessions
    {
      if sessionId in sessions then sessions[sessionId] else null
    }

    /** Every session exactly once, in no particular order. */
    method GetSessionsSnapshot() returns (snapshot: seq<ClientSession>)
      requires Valid()
      ensures forall id :: id in sessions ==> sessions[id] in snapshot
      ensures forall i :: 0 <= i < |snapshot| ==>
                snapshot[i].sessionId in sessions && sessions[snapshot[i].sessionId] == snapshot[i]
      ensures forall i, j :: 0 <= i < j < |snapshot| ==> snapshot[i].sessionId != snapshot[j].sessionId
    {
      snapshot := [];
      var remaining := sessions.Keys;
      while remaining != {}
        invariant remaining <= sessions.Keys
        invariant forall id :: id in sessions && id !in remaining ==> sessions[id] in snapshot
        invariant forall i :: 0 <= i < |snapshot| ==>
                    snapshot[i].sessionId in sessions && snapshot[i].sessionId !in remaining &&
                    sessions[snapshot[i].sessionId] == snapshot[i]
        invariant forall i, j :: 0 <= i < j < |snapshot| ==> snapshot[i].sessionId != snapshot[j].sessionId
        decreases remaining
      {
        var id :| id in remaining;
        remaining := remaining - {id};
        snapshot := snapshot + [sessions[id]];
      }
    }

    /** Empties the table, then stops every session that was in it. */
    method CloseAll()
      requires Valid()
      modifies this, sessions.Values, set s | s in sessions.Values :: s.controlSocket
      ensures sessions == map[]
      ensures forall id :: id in old(sessions) ==>
                old(sessions)[id].state == Stopped && old(sessions)[id].isControlConnectionClosed
    {
      var sessionsToClose := sessions;
      sessions := map[];
      var remaining := sessionsToClose.Keys;
      while remaining != {}
        invariant remaining <= sessionsToClose.Keys
        invariant sessions == map[]
        invariant forall id :: id in sessionsToClose && id !in remaining ==>
                    sessionsToClose[id].state == Stopped && sessionsToClose[id].isControlConnectionClosed
        decreases remaining
      {
        var id :| id in remaining;
        remaining := remaining - {id};
        sessionsToClose[id].StopSession();
      }
    }
  }
}
