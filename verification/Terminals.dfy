/**
  Terminal handles, their manager within a session, and the managers of all sessions:
  `acp/terminal.go` over the maps of `util/sync.go`, one whole operation at a time. Go iterates over
  maps in no particular order, so the release loops here pick handles and managers arbitrarily.
 */
module Terminals {
  import opened Sequences
  import opened Wrappers

  type TerminalId = string
  type SessionId = string

  class TerminalHandle {
    const id: TerminalId
    const sessionID: SessionId
    /** The error with which the peer answers the terminal/release request for this handle. At most
        one is ever sent, so one value covers every behaviour of the peer. */
    const releaseError: Option<string>
    var released: bool

    constructor (id: TerminalId, sessionID: SessionId, releaseError: Option<string>)
      ensures this.id == id && this.sessionID == sessionID && this.releaseError == releaseError && !released
    {
      this.id, this.sessionID, this.releaseError, released := id, sessionID, releaseError, false;
    }

    /** The compare-and-swap lets the first call through and no other. */
    method Release(conn: Connection) returns (error: Option<string>)
      modifies this, conn
      ensures released
      ensures error == if old(released) then None else releaseError
      ensures conn.releases == old(conn.releases) + if old(released) then [] else [this]
    {
      if released {
        return None;
      }
      released := true;
      conn.releases := conn.releases + [this];
      error := releaseError;
    }
  }

  /** The terminal/release requests sent on a connection, in order. */
  class Connection {
    var releases: seq<TerminalHandle>

    constructor ()
      ensures releases == []
    {
      releases := [];
    }
  }

  /** The outcome of releasing many: how many failed, and one of the errors. */
  datatype Outcome = AllReleased | Failed(count: nat, error: string)

  ghost function Released(handles: set<TerminalHandle>): set<TerminalHandle>
    reads handles
  {
    set h <- handles | h.released
  }

  /** The handles of `handles` whose release, now, sends a request. */
  ghost function Due(handles: set<TerminalHandle>): set<TerminalHandle>
    reads handles
  {
    handles - Released(handles)
  }

  /** Those whose release fails, where `done` were released before. */
  function Failing(handles: set<TerminalHandle>, done: set<TerminalHandle>): set<TerminalHandle> {
    set h <- handles | h !in done && h.releaseError.Some?
  }

  // ---- Releasing a list of handles ----

  /** The handles of a list that are not done, in order: what releasing the list requests. */
  function Requests(handles: seq<TerminalHandle>, done: set<TerminalHandle>): seq<TerminalHandle> {
    if handles == [] then []
    else
      var n := |handles| - 1;
      Requests(handles[..n], done) + (if handles[n] in done then [] else [handles[n]])
  }

  /** The errors of those requests, in order. */
  function Errors(handles: seq<TerminalHandle>, done: set<TerminalHandle>): seq<string> {
    if handles == [] then []
    else
      var n := |handles| - 1;
      Errors(handles[..n], done)
      + (if handles[n] in done || handles[n].releaseError.None? then [] else [handles[n].releaseError.value])
  }

  lemma {:induction false} RequestsInAnyOrder(handles: seq<TerminalHandle>, done: set<TerminalHandle>)
    requires Distinct(handles)
    ensures Distinct(Requests(handles, done)) && Elements(Requests(handles, done)) == Elements(handles) - done
  {
    if handles != [] {
      var n := |handles| - 1;
      RequestsInAnyOrder(handles[..n], done);
      assert Elements(handles) == Elements(handles[..n]) + {handles[n]};
      var earlier := Requests(handles[..n], done);
      assert forall h <- earlier :: h in Elements(earlier);
      assert Elements(earlier + [handles[n]]) == Elements(earlier) + {handles[n]};
    }
  }

  lemma {:induction false} ErrorsInAnyOrder(handles: seq<TerminalHandle>, done: set<TerminalHandle>)
    requires Distinct(handles)
    ensures |Errors(handles, done)| == |Failing(Elements(handles), done)|
    ensures forall e <- Errors(handles, done) ::
              exists h <- Failing(Elements(handles), done) :: h.releaseError == Some(e)
  {
    if handles != [] {
      var n := |handles| - 1;
      ErrorsInAnyOrder(handles[..n], done);
      var earlier, all := Elements(handles[..n]), Elements(handles);
      var last := handles[n];
      assert all == earlier + {last} && last !in earlier;
      if last !in done && last.releaseError.Some? {
        assert Failing(all, done) == Failing(earlier, done) + {last};
      } else {
        assert Failing(all, done) == Failing(earlier, done);
      }
    }
  }

  method ReleaseEach(conn: Connection, handles: seq<TerminalHandle>) returns (errors: seq<string>)
    requires Distinct(handles)
    modifies conn, handles
    ensures forall h <- handles :: h.released
    ensures conn.releases == old(conn.releases) + Requests(handles, old(Released(Elements(handles))))
    ensures errors == Errors(handles, old(Released(Elements(handles))))
  {
    ghost var done := Released(Elements(handles));
    errors := [];
    for i := 0 to |handles|
      invariant forall j :: 0 <= j < i ==> handles[j].released
      invariant forall j :: i <= j < |handles| ==> handles[j].released == (handles[j] in done)
      invariant conn.releases == old(conn.releases) + Requests(handles[..i], done)
      invariant errors == Errors(handles[..i], done)
    {
      var error := handles[i].Release(conn);
      assert handles[..i + 1][..i] == handles[..i];
      if error.Some? {
        errors := errors + [error.value];
      }
    }
    assert handles[..|handles|] == handles;
  }

  /** The values of a map with distinct values, in the arbitrary order of Go's iteration. */
  method ValuesOf<V(==)>(m: map<string, V>) returns (values: seq<V>)
    requires forall k, l | k in m && l in m && k != l :: m[k] != m[l]
    ensures Distinct(values) && Elements(values) == m.Values
  {
    values := [];
    var todo := m.Values;
    while todo != {}
      invariant Distinct(values)
      invariant forall v <- values :: v !in todo
      invariant m.Values == Elements(values) + todo
      decreases todo
    {
      var v :| v in todo;
      assert Elements(values + [v]) == Elements(values) + {v};
      values := values + [v];
      todo := todo - {v};
    }
  }

  /** The error return of `ReleaseAll`: none if nothing failed, otherwise the number of failures and
      one of their errors. */
  ghost predicate Reports(outcome: Outcome, failing: set<TerminalHandle>) {
    if failing == {} then outcome == AllReleased
    else outcome.Failed? && outcome.count == |failing| && exists h <- failing :: h.releaseError == Some(outcome.error)
  }

  /** The log grew by one request for each of `handles`, in some order. */
  ghost predicate RequestsSent(before: seq<TerminalHandle>, after: seq<TerminalHandle>, handles: set<TerminalHandle>) {
    before <= after && Distinct(after[|before|..]) && Elements(after[|before|..]) == handles
  }

  class TerminalManager {
    var terminals: map<TerminalId, TerminalHandle>
    const sessionID: SessionId
    const conn: Connection
    /** Every handle `CreateTerminal` has returned. */
    ghost var made: set<TerminalHandle>

    /** Every handle is stored under its own id and belongs to this session. */
    ghost predicate Valid()
      reads this
    {
      forall id <- terminals ::
        terminals[id].id == id && terminals[id].sessionID == sessionID && terminals[id] in made
    }

    /** Every handle made is in the map or released. */
    ghost predicate NoLeak()
      reads this, made
    {
      forall h <- made :: h.released || (h.id in terminals && terminals[h.id] == h)
    }

    constructor (sessionID: SessionId, conn: Connection)
      ensures Valid() && NoLeak() && terminals == map[] && made == {}
      ensures this.sessionID == sessionID && this.conn == conn
    {
      this.sessionID, this.conn, terminals, made := sessionID, conn, map[], {};
    }

    /** `response` is the peer's answer. A wrong session or an error changes nothing; otherwise the
        handle is stored over whatever was there, so nothing leaks exactly if the peer's id was not
        in use by an unreleased terminal. */
    method CreateTerminal(session: SessionId, response: Result<TerminalId, string>, releaseError: Option<string>)
        returns (r: Result<TerminalHandle, string>)
      requires Valid()
      modifies this
      ensures Valid()
      ensures r.Ok? <==> session == sessionID && response.Ok?
      ensures r.Err? ==> terminals == old(terminals) && made == old(made)
      ensures r.Ok? ==>
                && fresh(r.value) && r.value.id == response.value && r.value.sessionID == sessionID && !r.value.released
                && terminals == old(terminals)[response.value := r.value] && made == old(made) + {r.value}
      ensures r.Ok? && old(NoLeak()) ==>
                (NoLeak() <==> response.value !in old(terminals) || old(terminals[response.value].released))
    {
      if session != sessionID {
        return Err("session ID mismatch");
      }
      if response.Err? {
        return Err("failed to create terminal");
      }
      var handle := new TerminalHandle(response.value, sessionID, releaseError);
      terminals := terminals[response.value := handle];
      made := made + {handle};
      r := Ok(handle);
    }

    method ReleaseTerminal(id: TerminalId) returns (r: Result<(), string>)
      requires Valid()
      modifies this`terminals, conn, terminals.Values
      ensures Valid() && (old(NoLeak()) ==> NoLeak())
      ensures terminals == old(terminals) - {id}
      ensures id !in old(terminals) ==> r.Err? && conn.releases == old(conn.releases)
      ensures id in old(terminals) ==>
                var h := old(terminals[id]);
                && h.released
                && r == (if old(h.released) || h.releaseError.None? then Ok(()) else Err(h.releaseError.value))
                && conn.releases == old(conn.releases) + if old(h.released) then [] else [h]
      ensures forall h <- old(terminals.Values) :: h.id != id ==> h.released == old(h.released)
    {
      if id !in terminals {
        return Err("terminal not found");
      }
      var handle := terminals[id];
      assert handle in terminals.Values;
      terminals := terminals - {id};
      var error := handle.Release(conn);
      r := if error.Some? then Err(error.value) else Ok(());
    }

    /** Empties the map and releases every handle in it, also after failures, each unreleased one with
        one request; fails iff one of those requests fails, and counts them. */
    method ReleaseAll() returns (outcome: Outcome)
      requires Valid()
      modifies this`terminals, conn, terminals.Values
      ensures Valid() && (old(NoLeak()) ==> NoLeak())
      ensures terminals == map[] && forall h <- old(terminals.Values) :: h.released
      ensures Reports(outcome, Failing(old(terminals.Values), old(Released(terminals.Values))))
      ensures RequestsSent(old(conn.releases), conn.releases, old(Due(terminals.Values)))
    {
      var handles := ValuesOf(terminals);
      ghost var done := Released(terminals.Values);
      RequestsInAnyOrder(handles, done);
      ErrorsInAnyOrder(handles, done);
      terminals := map[];
      var errors := ReleaseEach(conn, handles);
      outcome := if |errors| > 0 then Failed(|errors|, errors[0]) else AllReleased;
      if old(NoLeak()) {
        forall h <- made ensures h.released {
          assert old(h.released) || h in old(terminals.Values);
        }
      }
    }
  }

  // ---- All sessions ----

  ghost function HandlesOf(managers: set<TerminalManager>): set<TerminalHandle>
    reads managers
  {
    set m, h | m in managers && h in m.terminals.Values :: h
  }

  /** The manager holds a handle whose release, sent now, fails. */
  ghost predicate WillFail(m: TerminalManager)
    reads m, m.terminals.Values
  {
    Failing(m.terminals.Values, Released(m.terminals.Values)) != {}
  }

  /** Managers of different sessions hold different handles. */
  lemma DifferentSessions(m: TerminalManager, n: TerminalManager)
    requires m.Valid() && n.Valid() && m.sessionID != n.sessionID
    ensures m.terminals.Values !! n.terminals.Values
  {
    forall h | h in m.terminals.Values ensures h !in n.terminals.Values {
      assert h.sessionID == m.sessionID;
    }
  }

  ghost function WillFailAmong(managers: set<TerminalManager>): set<TerminalManager>
    reads managers, HandlesOf(managers)
  {
    set m <- managers | WillFail(m)
  }

  /** Releasing one manager's terminals, beside managers of other sessions. */
  method ReleaseOne(manager: TerminalManager, ghost others: set<TerminalManager>) returns (outcome: Outcome)
    requires manager.Valid() && forall m <- others :: m.Valid() && m.sessionID != manager.sessionID
    modifies manager`terminals, manager.conn, manager.terminals.Values
    ensures manager.Valid() && manager.terminals == map[]
    ensures forall h <- old(manager.terminals.Values) :: h.released
    ensures Reports(outcome, Failing(old(manager.terminals.Values), old(Released(manager.terminals.Values))))
    ensures RequestsSent(old(manager.conn.releases), manager.conn.releases, old(Due(manager.terminals.Values)))
    ensures forall m <- others :: m.Valid() && m.terminals == old(m.terminals)
    ensures forall m <- others :: forall h <- m.terminals.Values :: h.released == old(h.released)
  {
    forall m | m in others ensures m.terminals.Values !! manager.terminals.Values {
      DifferentSessions(m, manager);
    }
    outcome := manager.ReleaseAll();
  }

  predicate DistinctSessions(list: seq<TerminalManager>) {
    forall i, j :: 0 <= i < j < |list| ==> list[i].sessionID != list[j].sessionID
  }

  /** One round of that loop leaves the later managers alone and releases nothing twice. */
  method ReleaseNext(conn: Connection, list: seq<TerminalManager>, i: nat, ghost handles: set<TerminalHandle>)
      returns (outcome: Outcome)
    requires i < |list| && DistinctSessions(list) && list[i].conn == conn
    requires forall j :: i <= j < |list| ==> list[j].Valid()
    modifies list[i], conn, list[i].terminals.Values
    ensures list[i].terminals == map[]
    ensures forall h <- old(list[i].terminals.Values) :: h.released
    ensures forall h <- handles :: old(h.released) ==> h.released
    ensures outcome.Failed? <==> old(WillFail(list[i]))
    ensures RequestsSent(old(conn.releases), conn.releases, old(Due(list[i].terminals.Values)))
    ensures forall j :: i < j < |list| ==>
              list[j].terminals == old(list[j].terminals) && list[j].Valid()
              && Due(list[j].terminals.Values) == old(Due(list[j].terminals.Values))
              && WillFail(list[j]) == old(WillFail(list[j]))
  {
    forall j | i < j < |list| ensures list[j].terminals.Values !! list[i].terminals.Values {
      DifferentSessions(list[j], list[i]);
    }
    outcome := list[i].ReleaseAll();
  }

  function Union(sets: seq<set<TerminalHandle>>): set<TerminalHandle> {
    set i, h | 0 <= i < |sets| && h in sets[i] :: h
  }

  /** What each manager of a list has to request. */
  ghost predicate DueTo(list: seq<TerminalManager>, due: seq<set<TerminalHandle>>)
    reads list, HandlesOf(Elements(list))
  {
    |due| == |list| && forall j :: 0 <= j < |list| ==> due[j] == Due(list[j].terminals.Values)
  }

  ghost function DueOf(list: seq<TerminalManager>): (due: seq<set<TerminalHandle>>)
    reads list, HandlesOf(Elements(list))
    ensures DueTo(list, due)
  {
    if list == [] then []
    else
      var n := |list| - 1;
      assert Elements(list) == Elements(list[..n]) + {list[n]};
      DueOf(list[..n]) + [Due(list[n].terminals.Values)]
  }

  lemma UnionOfDue(list: seq<TerminalManager>, due: seq<set<TerminalHandle>>)
    requires DueTo(list, due)
    ensures Union(due) == Due(HandlesOf(Elements(list)))
  {
    forall h | h in Due(HandlesOf(Elements(list))) ensures h in Union(due) {
      var m :| m in Elements(list) && h in m.terminals.Values;
      var j :| 0 <= j < |list| && list[j] == m;
      assert h in due[j];
    }
  }

  /** Two batches of requests for different handles make one. */
  lemma RequestsAddUp(a: seq<TerminalHandle>, b: seq<TerminalHandle>, c: seq<TerminalHandle>,
                      first: set<TerminalHandle>, second: set<TerminalHandle>)
    requires RequestsSent(a, b, first) && RequestsSent(b, c, second) && first !! second
    ensures RequestsSent(a, c, first + second)
  {
    var x, y := b[|a|..], c[|b|..];
    assert c[|a|..] == x + y;
    assert forall h <- x :: h in Elements(x);
    assert forall h <- y :: h in Elements(y);
    assert Elements(x + y) == Elements(x) + Elements(y);
    forall i, j | 0 <= i < j < |x + y| ensures (x + y)[i] != (x + y)[j] {
      assert i < |x| <= j ==> x[i] in x && y[j - |x|] in y;
    }
  }

  /** Each manager's share is of its session. */
  predicate OfSessions(list: seq<TerminalManager>, due: seq<set<TerminalHandle>>) {
    |due| == |list| && forall j, h | 0 <= j < |list| && h in due[j] :: h.sessionID == list[j].sessionID
  }

  /** What is due to managers of different sessions is different. */
  lemma DueAddsUp(list: seq<TerminalManager>, due: seq<set<TerminalHandle>>, i: nat)
    requires DistinctSessions(list) && OfSessions(list, due) && i < |list|
    ensures Union(due[..i]) !! due[i] && Union(due[..i + 1]) == Union(due[..i]) + due[i]
  {
    assert forall h <- due[i] :: h.sessionID == list[i].sessionID;
    forall h | h in Union(due[..i]) ensures h !in due[i] {
      var j :| 0 <= j < i && h in due[..i][j];
      assert h in due[j] && list[j].sessionID != list[i].sessionID;
    }
    forall h | h in Union(due[..i + 1]) ensures h in Union(due[..i]) + due[i] {
      var j :| 0 <= j <= i && h in due[..i + 1][j];
      assert j < i ==> h in due[..i][j];
    }
    forall h | h in Union(due[..i]) + due[i] ensures h in Union(due[..i + 1]) {
      if h in due[i] {
        assert h in due[..i + 1][i];
      } else {
        var j :| 0 <= j < i && h in due[..i][j];
        assert h in due[..i + 1][j];
      }
    }
  }

  lemma OneBatchMore(list: seq<TerminalManager>, due: seq<set<TerminalHandle>>, i: nat,
                     a: seq<TerminalHandle>, b: seq<TerminalHandle>, c: seq<TerminalHandle>)
    requires DistinctSessions(list) && OfSessions(list, due) && i < |list|
    requires RequestsSent(a, b, Union(due[..i])) && RequestsSent(b, c, due[i])
    ensures RequestsSent(a, c, Union(due[..i + 1]))
  {
    DueAddsUp(list, due, i);
    RequestsAddUp(a, b, c, Union(due[..i]), due[i]);
  }

  lemma DueIsOfSessions(list: seq<TerminalManager>, due: seq<set<TerminalHandle>>)
    requires DueTo(list, due) && forall m <- list :: m.Valid()
    ensures OfSessions(list, due) && Union(due[..0]) == {}
  {
    forall j, h | 0 <= j < |list| && h in due[j] ensures h.sessionID == list[j].sessionID {
      assert list[j] in list;
    }
  }

  function CountIn(list: seq<TerminalManager>, chosen: set<TerminalManager>): nat {
    if list == [] then 0
    else CountIn(list[..|list| - 1], chosen) + (if list[|list| - 1] in chosen then 1 else 0)
  }

  lemma {:induction false} CountDistinct(list: seq<TerminalManager>, chosen: set<TerminalManager>)
    requires Distinct(list)
    ensures CountIn(list, chosen) == |chosen * Elements(list)|
  {
    if list != [] {
      var earlier, last := list[..|list| - 1], list[|list| - 1];
      CountDistinct(earlier, chosen);
      assert Elements(list) == Elements(earlier) + {last};
      if last in chosen {
        assert chosen * Elements(list) == chosen * Elements(earlier) + {last};
      } else {
        assert chosen * Elements(list) == chosen * Elements(earlier);
      }
    }
  }

  /** The loop of the session-level `ReleaseAll`; counts the managers that report an error. */
  method ReleaseManagers(conn: Connection, list: seq<TerminalManager>, ghost failing: set<TerminalManager>,
                         ghost handles: set<TerminalHandle>, ghost due: seq<set<TerminalHandle>>)
      returns (errors: nat)
    requires DistinctSessions(list)
    requires forall m <- list :: m.Valid() && m.conn == conn && WillFail(m) == (m in failing)
    requires forall m <- list :: m.terminals.Values <= handles
    requires DueTo(list, due)
    modifies conn, list, handles
    ensures forall m <- list :: m.terminals == map[]
    ensures forall m <- list :: forall h <- old(m.terminals.Values) :: h.released
    ensures errors == CountIn(list, failing)
    ensures RequestsSent(old(conn.releases), conn.releases, Union(due))
  {
    errors := 0;
    DueIsOfSessions(list, due);
    for i := 0 to |list|
      invariant forall j :: 0 <= j < i ==> list[j].terminals == map[]
      invariant forall j :: 0 <= j < i ==> forall h <- old(list[j].terminals.Values) :: h.released
      invariant forall j :: i <= j < |list| ==>
                  list[j].terminals == old(list[j].terminals) && list[j].Valid()
                  && due[j] == Due(list[j].terminals.Values) && WillFail(list[j]) == (list[j] in failing)
      invariant errors == CountIn(list[..i], failing)
      invariant RequestsSent(old(conn.releases), conn.releases, Union(due[..i]))
    {
      ghost var before := conn.releases;
      var outcome := ReleaseNext(conn, list, i, handles);
      OneBatchMore(list, due, i, old(conn.releases), before, conn.releases);
      assert list[..i + 1][..i] == list[..i];
      if outcome.Failed? {
        errors := errors + 1;
      }
    }
    assert list[..|list|] == list && due[..|due|] == due;
  }

  class SessionTerminalManager {
    var managers: map<SessionId, TerminalManager>
    const conn: Connection

    ghost predicate Valid()
      reads this, managers.Values
    {
      forall s <- managers :: managers[s].sessionID == s && managers[s].conn == conn && managers[s].Valid()
    }

    constructor (conn: Connection)
      ensures Valid() && managers == map[] && this.conn == conn
    {
      this.conn, managers := conn, map[];
    }

    method GetManager(sessionID: SessionId) returns (actual: TerminalManager)
      requires Valid()
      modifies this
      ensures Valid() && actual.sessionID == sessionID
      ensures sessionID in old(managers) ==> managers == old(managers) && actual == managers[sessionID]
      ensures sessionID !in old(managers) ==>
                fresh(actual) && actual.terminals == map[] && managers == old(managers)[sessionID := actual]
    {
      var manager := new TerminalManager(sessionID, conn);
      if sessionID in managers {
        return managers[sessionID];
      }
      managers := managers[sessionID := manager];
      actual := manager;
    }

    /** Nothing happens to the terminals of other sessions. */
    method ReleaseSession(sessionID: SessionId) returns (outcome: Outcome)
      requires Valid()
      modifies this`managers, conn, managers.Values, HandlesOf(managers.Values)
      ensures Valid() && managers == old(managers) - {sessionID}
      ensures sessionID !in old(managers) ==> outcome == AllReleased && conn.releases == old(conn.releases)
      ensures sessionID in old(managers) ==>
                var m := old(managers)[sessionID];
                && m.terminals == map[] && (forall h <- old(m.terminals.Values) :: h.released)
                && Reports(outcome, Failing(old(m.terminals.Values), old(Released(m.terminals.Values))))
                && RequestsSent(old(conn.releases), conn.releases, old(Due(m.terminals.Values)))
      ensures forall s <- managers ::
                && managers[s].terminals == old(managers[s].terminals)
                && forall h <- managers[s].terminals.Values :: h.released == old(h.released)
    {
      if sessionID !in managers {
        return AllReleased;
      }
      var manager := managers[sessionID];
      assert manager in managers.Values && manager.terminals.Values <= HandlesOf(managers.Values);
      managers := managers - {sessionID};
      outcome := ReleaseOne(manager, managers.Values);
    }

    /** The managers, in the arbitrary order of Go's iteration; which of them will fail to release; and
        what each has to request. */
    method List()
        returns (list: seq<TerminalManager>, ghost failing: set<TerminalManager>, ghost due: seq<set<TerminalHandle>>)
      requires Valid()
      ensures DistinctSessions(list) && forall s <- managers :: managers[s] in list
      ensures forall m <- list :: m in managers.Values && m.Valid() && m.conn == conn && WillFail(m) == (m in failing)
      ensures failing == WillFailAmong(managers.Values) && CountIn(list, failing) == |failing|
      ensures DueTo(list, due)
      ensures Union(due) == Due(HandlesOf(managers.Values))
    {
      list := ValuesOf(managers);
      assert forall m <- list :: m in managers.Values by {
        assert forall m <- list :: m in Elements(list);
      }
      assert forall m <- managers.Values :: managers[m.sessionID] == m;
      forall s | s in managers ensures managers[s] in list {
        assert managers[s] in Elements(list);
      }
      failing := WillFailAmong(managers.Values);
      CountDistinct(list, failing);
      assert failing * Elements(list) == failing;
      due := DueOf(list);
      UnionOfDue(list, due);
      assert HandlesOf(managers.Values) == HandlesOf(Elements(list));
    }

    /** The same, emptying the map. */
    method TakeAll()
        returns (list: seq<TerminalManager>, ghost failing: set<TerminalManager>, ghost due: seq<set<TerminalHandle>>)
      requires Valid()
      modifies this`managers
      ensures managers == map[] && DistinctSessions(list)
      ensures forall s <- old(managers) :: old(managers)[s] in list
      ensures forall m <- list ::
              m in old(managers.Values) && m.Valid() && m.conn == conn && WillFail(m) == (m in failing)
      ensures failing == old(WillFailAmong(managers.Values)) && CountIn(list, failing) == |failing|
      ensures DueTo(list, due)
      ensures Union(due) == old(Due(HandlesOf(managers.Values)))
    {
      list, failing, due := List();
      managers := map[];
    }

    /** Empties every manager and releases every handle, also after failures, each unreleased one with
        one request; the result counts the sessions with a failing release, and is None if there are
        none. */
    method ReleaseAll() returns (failedSessions: Option<nat>)
      requires Valid()
      modifies this`managers, conn, managers.Values, HandlesOf(managers.Values)
      ensures Valid() && managers == map[]
      ensures forall s <- old(managers) ::
                var m := old(managers[s]);
                m.terminals == map[] && forall h <- old(m.terminals.Values) :: h.released
      ensures var failing := old(WillFailAmong(managers.Values));
              failedSessions == if failing == {} then None else Some(|failing|)
      ensures RequestsSent(old(conn.releases), conn.releases, old(Due(HandlesOf(managers.Values))))
    {
      ghost var handles := HandlesOf(managers.Values);
      var list, failing, due := TakeAll();
      var errors := ReleaseManagers(conn, list, failing, handles, due);
      failedSessions := if errors > 0 then Some(errors) else None;
    }
  }
}
