/** The session manager of `acp/session.go`, one whole operation at a time. Time is given. */
module Sessions {
  import opened Sequences
  import opened Wrappers

  type SessionId = string

  datatype SessionStatus = Active | Pending | Cancelled | Completed | Error

  class SessionState {
    const id: SessionId
    const createdAt: int
    var lastActive: int
    var status: SessionStatus

    constructor (id: SessionId, now: int)
      ensures this.id == id && createdAt == lastActive == now && status == Pending
    {
      this.id, createdAt, lastActive, status := id, now, now, Pending;
    }
  }

  /** A callback, by identity, and the record that holds one of each kind; None is nil. */
  type Callback = nat
  datatype SessionCallbacks = SessionCallbacks(onCreate: Option<Callback>, onUpdate: Option<Callback>,
                                               onDelete: Option<Callback>)

  /** A goroutine started to run a callback on a session. */
  datatype Scheduled = Scheduled(callback: Callback, session: SessionState)

  function Schedule(callback: Option<Callback>, sessions: seq<SessionState>): seq<Scheduled> {
    if callback.None? then []
    else seq(|sessions|, i requires 0 <= i < |sessions| => Scheduled(callback.value, sessions[i]))
  }

  lemma RemoveOneMore<V>(m: map<SessionId, V>, gone: set<SessionId>, id: SessionId)
    requires id in m && id !in gone
    ensures (m - gone) - {id} == m - (gone + {id})
    ensures |m - (gone + {id})| == |m - gone| - 1
  {
    assert (m - (gone + {id})).Keys == (m - gone).Keys - {id};
  }

  class SessionManager {
    var sessions: map<SessionId, SessionState>
    var callbacks: SessionCallbacks
    var scheduled: seq<Scheduled>

    ghost predicate Valid()
      reads this
    {
      forall id <- sessions :: sessions[id].id == id
    }

    constructor ()
      ensures Valid() && sessions == map[] && scheduled == []
      ensures callbacks == SessionCallbacks(None, None, None)
    {
      sessions, callbacks, scheduled := map[], SessionCallbacks(None, None, None), [];
    }

    /** An id in use is an error and changes nothing. */
    method CreateSession(id: SessionId, now: int) returns (r: Result<SessionState, string>)
      requires Valid()
      modifies this`sessions, this`scheduled
      ensures Valid()
      ensures r.Ok? <==> id !in old(sessions)
      ensures r.Err? ==> sessions == old(sessions) && scheduled == old(scheduled)
      ensures r.Ok? ==>
                && fresh(r.value) && r.value.id == id && r.value.status == Pending && r.value.lastActive == now
                && sessions == old(sessions)[id := r.value]
                && scheduled == old(scheduled) + Schedule(callbacks.onCreate, [r.value])
    {
      var session := new SessionState(id, now);
      if id in sessions {
        return Err("session already exists");
      }
      sessions := sessions[id := session];
      if callbacks.onCreate.Some? {
        scheduled := scheduled + [Scheduled(callbacks.onCreate.value, session)];
      }
      r := Ok(session);
    }

    method UpdateSession(id: SessionId, status: SessionStatus, now: int) returns (r: Result<(), string>)
      requires Valid()
      modifies this`scheduled, sessions.Values
      ensures Valid()
      ensures r.Ok? <==> id in sessions
      ensures id !in sessions ==> scheduled == old(scheduled)
      ensures id in sessions ==>
                && sessions[id].status == status && sessions[id].lastActive == now
                && scheduled == old(scheduled) + Schedule(callbacks.onUpdate, [sessions[id]])
      ensures forall k <- sessions :: k != id ==>
                sessions[k].status == old(sessions[k].status) && sessions[k].lastActive == old(sessions[k].lastActive)
    {
      if id !in sessions {
        return Err("session not found");
      }
      var session := sessions[id];
      assert session in sessions.Values;
      session.status := status;
      session.lastActive := now;
      if callbacks.onUpdate.Some? {
        scheduled := scheduled + [Scheduled(callbacks.onUpdate.value, session)];
      }
      r := Ok(());
    }

    method DeleteSession(id: SessionId) returns (r: Result<(), string>)
      requires Valid()
      modifies this`sessions, this`scheduled
      ensures Valid() && sessions == old(sessions) - {id}
      ensures r.Ok? <==> id in old(sessions)
      ensures scheduled == old(scheduled) +
                           if id in old(sessions) then Schedule(callbacks.onDelete, [old(sessions)[id]]) else []
    {
      if id !in sessions {
        return Err("session not found");
      }
      var session := sessions[id];
      sessions := sessions - {id};
      if callbacks.onDelete.Some? {
        scheduled := scheduled + [Scheduled(callbacks.onDelete.value, session)];
      }
      r := Ok(());
    }

    /** Replaces the record, keeping the other callbacks; the two siblings are alike. */
    method OnSessionDelete(callback: Option<Callback>)
      requires Valid()
      modifies this`callbacks
      ensures Valid() && callbacks == old(callbacks).(onDelete := callback)
    {
      callbacks := SessionCallbacks(callbacks.onCreate, callbacks.onUpdate, callback);
    }

    ghost function Idle(now: int, inactiveDuration: int): set<SessionId>
      reads this, sessions.Values
    {
      set id <- sessions | now - sessions[id].lastActive > inactiveDuration
    }

    /** The first loop: the idle sessions, in the arbitrary order of Go's iteration over the map. */
    method FindIdle(now: int, inactiveDuration: int)
        returns (toDelete: seq<SessionId>, deletedSessions: seq<SessionState>)
      requires Valid()
      ensures Distinct(toDelete) && Elements(toDelete) == Idle(now, inactiveDuration)
      ensures |deletedSessions| == |toDelete|
      ensures forall i :: 0 <= i < |toDelete| ==>
                && toDelete[i] in Idle(now, inactiveDuration)
                && sessions[toDelete[i]] == deletedSessions[i] && deletedSessions[i].id == toDelete[i]
    {
      toDelete, deletedSessions := [], [];
      var todo := sessions.Keys;
      while todo != {}
        invariant todo <= sessions.Keys
        invariant Distinct(toDelete) && Elements(toDelete) == Idle(now, inactiveDuration) - todo
        invariant |deletedSessions| == |toDelete|
        invariant forall i :: 0 <= i < |toDelete| ==>
                  toDelete[i] in sessions && deletedSessions[i] == sessions[toDelete[i]]
        decreases todo
      {
        var id :| id in todo;
        if now - sessions[id].lastActive > inactiveDuration {
          assert forall k <- toDelete :: k in Elements(toDelete);
          assert Elements(toDelete + [id]) == Elements(toDelete) + {id};
          toDelete, deletedSessions := toDelete + [id], deletedSessions + [sessions[id]];
        }
        todo := todo - {id};
      }
      assert forall i :: 0 <= i < |toDelete| ==> toDelete[i] in Elements(toDelete);
    }

    /** The last loop: the callback, if any, for each session. */
    method ScheduleDeletes(deletedSessions: seq<SessionState>)
      modifies this`scheduled
      ensures scheduled == old(scheduled) + Schedule(callbacks.onDelete, deletedSessions)
    {
      if callbacks.onDelete.Some? {
        for i := 0 to |deletedSessions|
          invariant scheduled == old(scheduled) + Schedule(callbacks.onDelete, deletedSessions[..i])
        {
          scheduled := scheduled + [Scheduled(callbacks.onDelete.value, deletedSessions[i])];
        }
        assert deletedSessions[..|deletedSessions|] == deletedSessions;
      }
    }

    /** The second loop. */
    method DeleteAll(toDelete: seq<SessionId>) returns (cleaned: nat)
      requires Valid() && Distinct(toDelete) && forall id <- toDelete :: id in sessions
      modifies this`sessions
      ensures Valid() && sessions == old(sessions) - Elements(toDelete)
      ensures cleaned == |toDelete| == |old(sessions)| - |sessions|
    {
      cleaned := 0;
      for i := 0 to |toDelete|
        invariant cleaned == i && sessions == old(sessions) - Elements(toDelete[..i])
        invariant |sessions| == |old(sessions)| - i
      {
        assert Elements(toDelete[..i + 1]) == Elements(toDelete[..i]) + {toDelete[i]};
        RemoveOneMore(old(sessions), Elements(toDelete[..i]), toDelete[i]);
        sessions := sessions - {toDelete[i]};
        cleaned := cleaned + 1;
      }
      assert toDelete[..|toDelete|] == toDelete;
    }

    /** Removes exactly the sessions idle for longer than the limit; returns by how many the count
        dropped; schedules the delete callback, if any, once for each of them and nothing else. */
    method CleanupInactiveSessions(now: int, inactiveDuration: int)
        returns (cleaned: nat, ghost removed: seq<SessionState>)
      requires Valid()
      modifies this`sessions, this`scheduled
      ensures Valid() && sessions == old(sessions) - old(Idle(now, inactiveDuration))
      ensures forall id <- old(sessions) :: id in sessions <==> now - old(sessions[id].lastActive) <= inactiveDuration
      ensures cleaned == |old(sessions)| - |sessions| == |removed|
      ensures Distinct(removed)
      ensures forall i :: 0 <= i < |removed| ==>
                removed[i].id in old(Idle(now, inactiveDuration)) && old(sessions)[removed[i].id] == removed[i]
      ensures scheduled == old(scheduled) + Schedule(callbacks.onDelete, removed)
    {
      var toDelete, deletedSessions := FindIdle(now, inactiveDuration);
      removed := deletedSessions;
      cleaned := DeleteAll(toDelete);
      ScheduleDeletes(deletedSessions);
    }
  }
}
