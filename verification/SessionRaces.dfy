/**
  The session map under concurrent use: an arbitrary interleaving of the atomic map operations that
  `CreateSession`, `DeleteSession`, `GetSession` and `CleanupInactiveSessions` consist of.
 */
module SessionRaces {
  import opened Wrappers

  type SessionId = string

  /** A session object, by identity. */
  type Session = nat

  /** `LoadOrStore`, and `LoadAndDelete` or the clean-up's `Delete`. */
  datatype Operation = Create(id: SessionId, session: Session) | Remove(id: SessionId)

  function Apply(m: map<SessionId, Session>, op: Operation): map<SessionId, Session> {
    match op
    case Create(id, session) => if id in m then m else m[id := session]
    case Remove(id) => m - {id}
  }

  function After(ops: seq<Operation>): map<SessionId, Session> {
    if ops == [] then map[] else Apply(After(ops[..|ops| - 1]), ops[|ops| - 1])
  }

  /** `Load` */
  function Lookup(m: map<SessionId, Session>, id: SessionId): Option<Session> {
    if id in m then Some(m[id]) else None
  }

  /** What an operation reports: a creation or a removal, if it succeeds. */
  datatype Event = Created(session: Session) | Removed(session: Session)

  /** The successful creations and removals of `id`, in order. */
  function History(ops: seq<Operation>, id: SessionId): seq<Event> {
    if ops == [] then []
    else
      var m, op := After(ops[..|ops| - 1]), ops[|ops| - 1];
      History(ops[..|ops| - 1], id)
      + if op.id != id then []
        else if op.Create? && id !in m then [Created(op.session)]
        else if op.Remove? && id in m then [Removed(m[id])]
        else []
  }

  /** Creation, removal, creation, ..., each removal of the object created just before. */
  predicate Alternates(h: seq<Event>) {
    && (forall i :: 0 <= i < |h| ==> (h[i].Created? <==> i % 2 == 0))
    && (forall i :: 0 < i < |h| && h[i].Removed? ==> h[i].session == h[i - 1].session)
  }

  lemma {:induction false} AlternatesExtends(h: seq<Event>, e: Event)
    requires Alternates(h)
    requires e.Created? <==> h == [] || h[|h| - 1].Removed?
    requires e.Removed? ==> e.session == h[|h| - 1].session
    ensures Alternates(h + [e])
  {
    assert e.Created? <==> |h| % 2 == 0;
  }

  /** In every interleaving, the successful creations and removals of an id strictly alternate; a
      lookup finds the object created last, exactly while it has not been removed. */
  lemma {:induction false} CreationsAndRemovalsAlternate(ops: seq<Operation>, id: SessionId)
    ensures var h := History(ops, id);
            && Alternates(h)
            && (forall i :: 0 <= i < |h| ==> (h[i].Removed? <==> i % 2 == 1))
            && (forall i :: 0 < i < |h| && i % 2 == 1 ==> h[i].session == h[i - 1].session)
            && Lookup(After(ops), id) == if h != [] && h[|h| - 1].Created? then Some(h[|h| - 1].session) else None
  {
    if ops != [] {
      var before := ops[..|ops| - 1];
      CreationsAndRemovalsAlternate(before, id);
      var h := History(before, id);
      if History(ops, id) != h {
        var e := History(ops, id)[|h|];
        assert History(ops, id) == h + [e];
        AlternatesExtends(h, e);
      }
    }
  }

  /** The clean-up decides on a session, and removes its id later. Exactly if no removal of the id
      succeeded in between, it removes the session it decided on. */
  lemma {:induction false} DelayedRemoval(ops: seq<Operation>, later: seq<Operation>, id: SessionId, session: Session)
    requires Lookup(After(ops), id) == Some(session)
    requires forall op <- later | op.Create? :: op.session != session
    ensures |History(ops, id)| <= |History(ops + later, id)|
    ensures Lookup(After(ops + later), id) == Some(session) <==> |History(ops + later, id)| == |History(ops, id)|
    decreases |later|
  {
    if later == [] {
      assert ops + later == ops;
    } else {
      var n := |later| - 1;
      assert (ops + later)[..|ops + later| - 1] == ops + later[..n];
      assert later[n] in later;
      DelayedRemoval(ops, later[..n], id, session);
    }
  }

  /** Otherwise it may remove a session created since, which nobody found idle. */
  lemma CleanupCanRemoveNewSession(id: SessionId, idle: Session, created: Session)
    requires idle != created
    ensures exists ops, later ::
              && Lookup(After(ops), id) == Some(idle) && Lookup(After(ops + later), id) == Some(created)
              && Lookup(After(ops + later + [Remove(id)]), id) == None
  {
    var ops, later := [Create(id, idle)], [Remove(id), Create(id, created)];
    assert ops[..0] == [] && After(ops) == map[id := idle];
    var all := ops + later;
    assert all[..2] == [Create(id, idle), Remove(id)] && all[..2][..1] == ops;
    assert After(all[..2]) == map[];
    assert After(all) == map[id := created];
    assert (all + [Remove(id)])[..3] == all;
  }
}
