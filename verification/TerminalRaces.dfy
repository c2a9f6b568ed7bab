/**
  The same terminal operations split at their atomic actions, for any number of goroutines: each
  operation of a manager's map and of the map of managers, the compare-and-swap of a handle's released
  flag, and the sending of its terminal/release request are separate steps.
 */
module TerminalRaces {
  type TerminalId = string
  type SessionId = string
  type HandleId = nat
  type ManagerId = nat
  type ThreadId = nat

  datatype Handle = Handle(id: TerminalId, session: SessionId, released: bool, sent: nat)
  datatype Manager = Manager(session: SessionId, terminals: map<TerminalId, HandleId>)

  /** Where the managers are. `owned`: made without the map of managers, and kept by their maker.
      `current`: that map. `lists`: for a session-level `ReleaseAll` between its `GetAll` and its
      `Clear`, what it has seen. `due`: taken by a `ReleaseSession`, or by such a `ReleaseAll`, that has
      not begun to release them. */
  datatype Registry = Registry(
    owned: set<ManagerId>,
    current: map<SessionId, ManagerId>,
    lists: map<ThreadId, set<ManagerId>>,
    due: multiset<ManagerId>)

  datatype ManagerAction =
    | New(session: SessionId)
    | LoadOrStore(session: SessionId)
    | Take(session: SessionId)
    | ListAll(thread: ThreadId)
    | ClearAll(thread: ThreadId)

  predicate ManagersEnabled(g: Registry, a: ManagerAction) {
    match a
    case New(_) => true
    case LoadOrStore(_) => true
    case Take(session) => session in g.current
    case ListAll(t) => t !in g.lists
    case ClearAll(t) => t in g.lists
  }

  /** The manager that an action makes, if any. */
  function Made(g: Registry, a: ManagerAction): seq<Manager> {
    if a.New? || (a.LoadOrStore? && a.session !in g.current) then [Manager(a.session, map[])] else []
  }

  /** `next` is the number of the manager made. */
  function ManagersStep(g: Registry, next: ManagerId, a: ManagerAction): Registry
    requires ManagersEnabled(g, a)
  {
    match a
    case New(_) => g.(owned := g.owned + {next})
    case LoadOrStore(session) => if session in g.current then g else g.(current := g.current[session := next])
    case Take(session) => g.(current := g.current - {session}, due := g.due + multiset{g.current[session]})
    case ListAll(t) => g.(lists := g.lists[t := g.current.Values])
    case ClearAll(t) => g.(current := map[], lists := g.lists - {t}, due := g.due + multiset(g.lists[t]))
  }

  /** A `ReleaseAll` of one manager between its `GetAll` and its `Clear`. */
  datatype Snapshot = Snapshot(manager: ManagerId, handles: set<HandleId>)

  /** `storing`: handles made by `CreateTerminal` and not stored yet. `releasing`: calls of `Release`
      before the compare-and-swap. `sending`: those that won it and have not sent their request. */
  datatype State = State(
    handles: seq<Handle>,
    managers: seq<Manager>,
    storing: set<(ManagerId, HandleId)>,
    snapshots: map<ThreadId, Snapshot>,
    releasing: multiset<HandleId>,
    sending: multiset<HandleId>,
    registry: Registry)

  const INITIAL := State([], [], {}, map[], multiset{}, multiset{}, Registry({}, map[], map[], multiset{}))

  /** `GetAll` begins a `ReleaseAll`, either one that is `due` or another one. */
  datatype Action =
    | Managers(action: ManagerAction)
    | Create(manager: ManagerId, id: TerminalId)
    | Store(manager: ManagerId, handle: HandleId)
    | LoadAndDelete(manager: ManagerId, id: TerminalId)
    | GetAll(thread: ThreadId, manager: ManagerId, due: bool)
    | ClearMap(thread: ThreadId)
    | CallRelease(handle: HandleId)
    | CompareAndSwap(handle: HandleId)
    | Send(handle: HandleId)

  predicate Enabled(s: State, a: Action) {
    match a
    case Managers(action) => ManagersEnabled(s.registry, action)
    case Create(m, _) => m < |s.managers|
    case Store(m, h) => (m, h) in s.storing && m < |s.managers| && h < |s.handles|
    case LoadAndDelete(m, id) => m < |s.managers| && id in s.managers[m].terminals
    case GetAll(t, m, due) => t !in s.snapshots && m < |s.managers| && (due ==> m in s.registry.due)
    case ClearMap(t) => t in s.snapshots && s.snapshots[t].manager < |s.managers|
    case CallRelease(h) => h < |s.handles|
    case CompareAndSwap(h) => h in s.releasing && h < |s.handles|
    case Send(h) => h in s.sending && h < |s.handles|
  }

  function Step(s: State, a: Action): State
    requires Enabled(s, a)
  {
    match a
    case Managers(action) =>
      s.(managers := s.managers + Made(s.registry, action),
         registry := ManagersStep(s.registry, |s.managers|, action))
    case Create(m, id) =>
      s.(handles := s.handles + [Handle(id, s.managers[m].session, false, 0)],
         storing := s.storing + {(m, |s.handles|)})
    case Store(m, h) =>
      var manager := s.managers[m];
      s.(managers := s.managers[m := manager.(terminals := manager.terminals[s.handles[h].id := h])],
         storing := s.storing - {(m, h)})
    case LoadAndDelete(m, id) =>
      var manager := s.managers[m];
      s.(managers := s.managers[m := manager.(terminals := manager.terminals - {id})],
         releasing := s.releasing + multiset{manager.terminals[id]})
    case GetAll(t, m, due) =>
      s.(snapshots := s.snapshots[t := Snapshot(m, s.managers[m].terminals.Values)],
         registry := if due then s.registry.(due := s.registry.due - multiset{m}) else s.registry)
    case ClearMap(t) =>
      var m := s.snapshots[t].manager;
      s.(managers := s.managers[m := s.managers[m].(terminals := map[])], snapshots := s.snapshots - {t},
         releasing := s.releasing + multiset(s.snapshots[t].handles))
    case CallRelease(h) => s.(releasing := s.releasing + multiset{h})
    case CompareAndSwap(h) =>
      if s.handles[h].released then s.(releasing := s.releasing - multiset{h})
      else s.(handles := s.handles[h := s.handles[h].(released := true)],
              releasing := s.releasing - multiset{h}, sending := s.sending + multiset{h})
    case Send(h) =>
      s.(handles := s.handles[h := s.handles[h].(sent := s.handles[h].sent + 1)], sending := s.sending - multiset{h})
  }

  ghost predicate Executes(s: State, actions: seq<Action>, t: State)
    decreases |actions|
  {
    if actions == [] then s == t
    else Enabled(s, actions[0]) && Executes(Step(s, actions[0]), actions[1..], t)
  }

  // ---- One request per handle ----

  /** A released handle has exactly one request sent or about to be; an unreleased one has none. */
  predicate RequestInv(s: State) {
    forall h: HandleId | h < |s.handles| :: s.handles[h].sent + s.sending[h] == if s.handles[h].released then 1 else 0
  }

  predicate Belongs(s: State, h: HandleId, session: SessionId) {
    h < |s.handles| && s.handles[h].session == session
  }

  /** A handle stored, or about to be stored, in a manager belongs to the manager's session, and is
      stored under its own id. */
  predicate StoreInv(s: State) {
    && (forall m: ManagerId | m < |s.managers| :: forall id <- s.managers[m].terminals ::
          && Belongs(s, s.managers[m].terminals[id], s.managers[m].session)
          && s.handles[s.managers[m].terminals[id]].id == id)
    && (forall p <- s.storing :: p.0 < |s.managers| && Belongs(s, p.1, s.managers[p.0].session))
  }

  /** Nothing refers to handles that have not been made. */
  predicate RangeInv(s: State) {
    && (forall h <- s.releasing :: h < |s.handles|)
    && (forall h <- s.sending :: h < |s.handles|)
    && (forall t <- s.snapshots ::
          s.snapshots[t].manager < |s.managers| && forall h <- s.snapshots[t].handles :: h < |s.handles|)
  }

  predicate Inv(s: State) {
    RequestInv(s) && StoreInv(s) && RangeInv(s)
  }

  lemma StepKeepsRequestInv(s: State, a: Action)
    requires Inv(s) && Enabled(s, a)
    ensures RequestInv(Step(s, a))
  {
    if a.Create? {
      assert s.sending[|s.handles|] == 0;
    }
  }

  /** Handles are never removed, and only their flags change, one way. */
  predicate Extends(s: State, t: State) {
    && |s.handles| <= |t.handles|
    && forall h: HandleId | h < |s.handles| ::
         && t.handles[h].id == s.handles[h].id && t.handles[h].session == s.handles[h].session
         && (s.handles[h].released ==> t.handles[h].released)
         && s.handles[h].sent <= t.handles[h].sent
  }

  lemma StepExtends(s: State, a: Action)
    requires Enabled(s, a)
    ensures Extends(s, Step(s, a))
  {
  }

  lemma StepKeepsMaps(s: State, a: Action, m: ManagerId, id: TerminalId)
    requires Inv(s) && Enabled(s, a)
    requires m < |Step(s, a).managers| && id in Step(s, a).managers[m].terminals
    ensures var t := Step(s, a);
            var h := t.managers[m].terminals[id];
            Belongs(t, h, t.managers[m].session) && t.handles[h].id == id
  {
    StepExtends(s, a);
    if a.Store? && a.manager == m && s.handles[a.handle].id == id {
      assert (a.manager, a.handle) in s.storing;
    } else {
      assert m < |s.managers| && id in s.managers[m].terminals;
      assert Belongs(s, s.managers[m].terminals[id], s.managers[m].session);
    }
  }

  lemma StepKeepsStoreInv(s: State, a: Action)
    requires Inv(s) && Enabled(s, a)
    ensures StoreInv(Step(s, a)) && Extends(s, Step(s, a))
  {
    var t := Step(s, a);
    StepExtends(s, a);
    forall m: ManagerId, id | m < |t.managers| && id in t.managers[m].terminals
      ensures Belongs(t, t.managers[m].terminals[id], t.managers[m].session)
      ensures t.handles[t.managers[m].terminals[id]].id == id
    {
      StepKeepsMaps(s, a, m, id);
    }
    assert forall p <- t.storing :: p in s.storing || p == (a.manager, |s.handles|);
  }

  lemma StoredInRange(s: State, m: ManagerId)
    requires StoreInv(s) && m < |s.managers|
    ensures forall h <- s.managers[m].terminals.Values :: h < |s.handles|
  {
    forall h | h in s.managers[m].terminals.Values ensures h < |s.handles| {
      assert Belongs(s, h, s.managers[m].session);
    }
  }

  lemma StepKeepsSnapshotsInRange(s: State, a: Action, u: ThreadId)
    requires Inv(s) && Enabled(s, a) && u in Step(s, a).snapshots
    ensures var t := Step(s, a);
            t.snapshots[u].manager < |t.managers| && forall h <- t.snapshots[u].handles :: h < |t.handles|
  {
    if a.GetAll? {
      StoredInRange(s, a.manager);
    }
  }

  lemma StepKeepsRangeInv(s: State, a: Action)
    requires Inv(s) && Enabled(s, a)
    ensures RangeInv(Step(s, a))
  {
    var t := Step(s, a);
    forall u | u in t.snapshots
      ensures t.snapshots[u].manager < |t.managers| && forall h <- t.snapshots[u].handles :: h < |t.handles|
    {
      StepKeepsSnapshotsInRange(s, a, u);
    }
    if a.LoadAndDelete? {
      StoredInRange(s, a.manager);
      assert s.managers[a.manager].terminals[a.id] in s.managers[a.manager].terminals.Values;
    }
  }

  lemma StepKeepsInv(s: State, a: Action)
    requires Inv(s) && Enabled(s, a)
    ensures Inv(Step(s, a)) && Extends(s, Step(s, a))
  {
    StepKeepsRequestInv(s, a);
    StepKeepsStoreInv(s, a);
    StepKeepsRangeInv(s, a);
  }

  lemma {:induction false} ExecutionKeepsInv(s: State, actions: seq<Action>, t: State)
    requires Inv(s) && Executes(s, actions, t)
    ensures Inv(t) && Extends(s, t)
    decreases |actions|
  {
    if actions != [] {
      StepKeepsInv(s, actions[0]);
      ExecutionKeepsInv(Step(s, actions[0]), actions[1..], t);
    }
  }

  /** In every interleaving a handle is sent at most one release request, exactly one being sent or
      on its way once it is released; the released flag never reverts; and every stored handle
      carries the id it is stored under and its manager's session. */
  lemma OneRequestPerHandle(before: seq<Action>, s: State, later: seq<Action>, t: State, h: HandleId)
    requires Executes(INITIAL, before, s) && Executes(s, later, t) && h < |s.handles|
    ensures h < |t.handles| && t.handles[h].sent <= 1
    ensures t.handles[h].sent + t.sending[h] == if t.handles[h].released then 1 else 0
    ensures s.handles[h].released ==> t.handles[h].released
    ensures StoreInv(t)
  {
    ExecutionKeepsInv(INITIAL, before, s);
    ExecutionKeepsInv(s, later, t);
  }

  // ---- Calls of `Release` ----

  /** How often a step begins to release `h`. */
  function Begins(s: State, a: Action, h: HandleId): nat
    requires Enabled(s, a)
  {
    match a
    case LoadAndDelete(m, id) => if s.managers[m].terminals[id] == h then 1 else 0
    case ClearMap(t) => if h in s.snapshots[t].handles then 1 else 0
    case CallRelease(g) => if g == h then 1 else 0
    case _ => 0
  }

  ghost function Begun(s: State, actions: seq<Action>, t: State, h: HandleId): nat
    requires Executes(s, actions, t)
    decreases |actions|
  {
    if actions == [] then 0 else Begins(s, actions[0], h) + Begun(Step(s, actions[0]), actions[1..], t, h)
  }

  function Swaps(actions: seq<Action>, h: HandleId): nat {
    if actions == [] then 0 else (if actions[0] == CompareAndSwap(h) then 1 else 0) + Swaps(actions[1..], h)
  }

  /** Every release begun, by whomever, is either still to come or has done its compare-and-swap: none
      is lost, none counted twice. */
  lemma {:induction false} ReleasesAreConserved(s: State, actions: seq<Action>, t: State, h: HandleId)
    requires Executes(s, actions, t)
    ensures t.releasing[h] + Swaps(actions, h) == s.releasing[h] + Begun(s, actions, t, h)
    decreases |actions|
  {
    if actions != [] {
      ReleasesAreConserved(Step(s, actions[0]), actions[1..], t, h);
    }
  }
}
