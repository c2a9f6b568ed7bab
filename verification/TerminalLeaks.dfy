/**
  When terminals get lost under concurrent use: the exact condition on the steps of `TerminalRaces`
  for every handle ever made to stay within somebody's reach until it is released.
 */
module TerminalLeaks {
  import opened TerminalRaces

  predicate Holds(manager: Manager, id: TerminalId, h: HandleId) {
    id in manager.terminals && manager.terminals[id] == h
  }

  predicate HeldBy(s: State, m: ManagerId, h: HandleId) {
    m < |s.managers| && h < |s.handles| && Holds(s.managers[m], s.handles[h].id, h)
  }

  ghost predicate InManager(s: State, h: HandleId) {
    exists m: ManagerId :: HeldBy(s, m, h)
  }

  /** Some goroutine will call `Release` on it, unless it did: one that took it from a map, or a
      `ReleaseAll` that saw it. */
  predicate Free(s: State, h: HandleId) {
    || (h < |s.handles| && s.handles[h].released)
    || h in s.releasing
    || exists t <- s.snapshots :: h in s.snapshots[t].handles
  }

  predicate IsCurrent(s: State, m: ManagerId) {
    m < |s.managers| && s.managers[m].session in s.registry.current
    && s.registry.current[s.managers[m].session] == m
  }

  /** Kept by its maker, or certain to be released. */
  predicate Kept(s: State, m: ManagerId) {
    m in s.registry.owned || m in s.registry.due || exists t <- s.registry.lists :: m in s.registry.lists[t]
  }

  /** Somebody can find the manager. */
  predicate Reached(s: State, m: ManagerId) {
    Kept(s, m) || IsCurrent(s, m)
  }

  /** Free, about to be stored, or in the map of a manager that can be found. */
  ghost predicate Accounted(s: State, h: HandleId) {
    || Free(s, h)
    || (exists p :: p in s.storing && p.1 == h)
    || (exists m: ManagerId :: Reached(s, m) && HeldBy(s, m, h))
  }

  ghost predicate AllAccounted(s: State) {
    forall h: HandleId | h < |s.handles| :: Accounted(s, h)
  }

  // ---- What every interleaving keeps ----

  /** A handle is about to be stored at most once, and is then in no map. */
  ghost predicate StoringInv(s: State) {
    && (forall p, q | p in s.storing && q in s.storing && p.1 == q.1 :: p == q)
    && (forall p <- s.storing :: p.1 < |s.handles| && !InManager(s, p.1))
  }

  /** A handle is in the map of one manager at most. */
  ghost predicate HolderInv(s: State) {
    forall m: ManagerId, n: ManagerId, h: HandleId | HeldBy(s, m, h) && HeldBy(s, n, h) :: m == n
  }

  /** The managers of the map have been made, each for the session it is found under. */
  predicate CurrentInv(s: State) {
    forall session <- s.registry.current ::
      s.registry.current[session] < |s.managers| && s.managers[s.registry.current[session]].session == session
  }

  ghost predicate FullInv(s: State) {
    Inv(s) && StoringInv(s) && HolderInv(s) && CurrentInv(s)
  }

  /** Only `Store` puts a handle into a map. */
  lemma HeldBefore(s: State, a: Action, m: ManagerId, h: HandleId)
    requires FullInv(s) && Enabled(s, a) && HeldBy(Step(s, a), m, h)
    ensures a == Store(m, h) || HeldBy(s, m, h)
  {
    if m < |s.managers| {
      StoredInRange(s, m);
    }
  }

  lemma StepKeepsHolderInv(s: State, a: Action)
    requires FullInv(s) && Enabled(s, a)
    ensures HolderInv(Step(s, a))
  {
    var t := Step(s, a);
    forall m: ManagerId, n: ManagerId, h: HandleId | HeldBy(t, m, h) && HeldBy(t, n, h) ensures m == n {
      HeldBefore(s, a, m, h);
      HeldBefore(s, a, n, h);
      if a.Store? && a.handle == h {
        assert (a.manager, h) in s.storing;
      }
    }
  }

  lemma StaysOutside(s: State, a: Action, p: (ManagerId, HandleId))
    requires FullInv(s) && Enabled(s, a) && p in Step(s, a).storing
    ensures p.1 < |Step(s, a).handles| && !InManager(Step(s, a), p.1)
  {
    if m: ManagerId :| HeldBy(Step(s, a), m, p.1) {
      HeldBefore(s, a, m, p.1);
    }
  }

  lemma StepKeepsStoringInv(s: State, a: Action)
    requires FullInv(s) && Enabled(s, a)
    ensures StoringInv(Step(s, a))
  {
    forall p | p in Step(s, a).storing ensures p.1 < |Step(s, a).handles| && !InManager(Step(s, a), p.1) {
      StaysOutside(s, a, p);
    }
  }

  lemma ManagersStay(s: State, a: Action)
    requires Enabled(s, a)
    ensures |s.managers| <= |Step(s, a).managers|
    ensures forall m: ManagerId | m < |s.managers| :: Step(s, a).managers[m].session == s.managers[m].session
  {
  }

  lemma StepKeepsCurrentInv(s: State, a: Action)
    requires CurrentInv(s) && Enabled(s, a)
    ensures CurrentInv(Step(s, a))
  {
    var t := Step(s, a);
    ManagersStay(s, a);
    forall session | session in t.registry.current
      ensures t.registry.current[session] < |t.managers|
      ensures t.managers[t.registry.current[session]].session == session
    {
      if session in s.registry.current {
        assert t.registry.current[session] == s.registry.current[session];
      }
    }
  }

  lemma StepKeepsFullInv(s: State, a: Action)
    requires FullInv(s) && Enabled(s, a)
    ensures FullInv(Step(s, a))
  {
    StepKeepsInv(s, a);
    StepKeepsHolderInv(s, a);
    StepKeepsStoringInv(s, a);
    StepKeepsCurrentInv(s, a);
  }

  // ---- The guard ----

  predicate AllFree(s: State, m: ManagerId)
    requires m < |s.managers|
  {
    forall h <- s.managers[m].terminals.Values :: Free(s, h)
  }

  /** A `Store` goes to a manager that can be found, and overwrites nothing that is not free; a `Clear`
      drops nothing that is not free, nor a manager with such handles that nobody else keeps. */
  predicate Guarded(s: State, a: Action)
    requires Enabled(s, a)
  {
    match a
    case Store(m, h) =>
      && (Reached(s, m) || Free(s, h))
      && (s.handles[h].id in s.managers[m].terminals ==> Free(s, s.managers[m].terminals[s.handles[h].id]))
    case ClearMap(t) => AllFree(s, s.snapshots[t].manager)
    case Managers(ClearAll(_)) =>
      forall m: ManagerId | m < |s.managers| && IsCurrent(s, m) :: Kept(s, m) || AllFree(s, m)
    case _ => true
  }

  /** What is free stays free. */
  lemma StaysFree(s: State, a: Action, h: HandleId)
    requires Enabled(s, a) && h < |s.handles| && Free(s, h)
    ensures Free(Step(s, a), h)
  {
    var t := Step(s, a);
    if s.handles[h].released {
      assert t.handles[h].released;
    } else if h in s.releasing {
      assert t.handles[h].released || h in t.releasing;
    } else {
      var u :| u in s.snapshots && h in s.snapshots[u].handles;
      if a == ClearMap(u) {
        assert h in t.releasing;
      } else {
        assert u in t.snapshots && t.snapshots[u] == s.snapshots[u];
      }
    }
  }

  /** Only the steps that release, and `GetAll`, make a handle free. */
  lemma FreeBefore(s: State, a: Action, h: HandleId)
    requires Enabled(s, a) && (a.Store? || a.ClearMap? || a.Managers?)
    requires h < |s.handles| && Free(Step(s, a), h)
    ensures Free(s, h)
  {
    var t := Step(s, a);
    if u :| u in t.snapshots && h in t.snapshots[u].handles {
      assert u in s.snapshots && s.snapshots[u] == t.snapshots[u];
    } else if a.ClearMap? && h in s.snapshots[a.thread].handles {
    } else {
      assert t.handles[h].released == s.handles[h].released;
    }
  }

  lemma StaysReached(s: State, a: Action, m: ManagerId)
    requires Enabled(s, a) && m < |s.managers| && Reached(s, m)
    requires a.GetAll? ==> a.manager != m
    requires a.Managers? && a.action.ClearAll? ==> Kept(s, m)
    ensures Reached(Step(s, a), m)
  {
    if u :| u in s.registry.lists && m in s.registry.lists[u] {
      var t := Step(s, a);
      assert m in t.registry.due || (u in t.registry.lists && m in t.registry.lists[u]);
    }
  }

  /** A handle in a map stays there, or gets free, under a guarded step. */
  lemma StaysHeld(s: State, a: Action, m: ManagerId, h: HandleId)
    requires FullInv(s) && Enabled(s, a) && Guarded(s, a) && HeldBy(s, m, h) && !Free(s, h)
    ensures HeldBy(Step(s, a), m, h) || Free(Step(s, a), h)
    ensures a.GetAll? && a.manager == m ==> Free(Step(s, a), h)
  {
    assert h in s.managers[m].terminals.Values;
    match a {
      case LoadAndDelete(n, id) =>
        if n == m && id == s.handles[h].id {
          assert h in Step(s, a).releasing;
        }
      case GetAll(u, n, _) =>
        if n == m {
          assert h in Step(s, a).snapshots[u].handles;
        }
      case _ => assert HeldBy(Step(s, a), m, h);
    }
  }

  lemma StaysWithin(s: State, a: Action, m: ManagerId, h: HandleId)
    requires FullInv(s) && Enabled(s, a) && Guarded(s, a) && Reached(s, m) && HeldBy(s, m, h) && !Free(s, h)
    ensures Accounted(Step(s, a), h)
  {
    assert h in s.managers[m].terminals.Values;
    StaysHeld(s, a, m, h);
    if !Free(Step(s, a), h) {
      StaysReached(s, a, m);
    }
  }

  lemma StaysStoring(s: State, a: Action, p: (ManagerId, HandleId))
    requires FullInv(s) && Enabled(s, a) && Guarded(s, a) && p in s.storing && !Free(s, p.1)
    ensures Accounted(Step(s, a), p.1)
  {
    var t := Step(s, a);
    if a == Store(p.0, p.1) {
      StaysReached(s, a, p.0);
      assert HeldBy(t, p.0, p.1);
    } else {
      assert p in t.storing;
    }
  }

  lemma GuardedStepKeepsAccounted(s: State, a: Action, h: HandleId)
    requires FullInv(s) && AllAccounted(s) && Enabled(s, a) && Guarded(s, a) && h < |Step(s, a).handles|
    ensures Accounted(Step(s, a), h)
  {
    if h >= |s.handles| {
      assert a.Create? && (a.manager, h) in Step(s, a).storing;
    } else if Free(s, h) {
      StaysFree(s, a, h);
    } else if p :| p in s.storing && p.1 == h {
      StaysStoring(s, a, p);
    } else {
      assert Accounted(s, h);
      var m: ManagerId :| Reached(s, m) && HeldBy(s, m, h);
      StaysWithin(s, a, m, h);
    }
  }

  /** A handle that is not free, nor about to be stored, nor left in a manager that can be found, is lost. */
  lemma NowhereIsLost(s: State, a: Action, m: ManagerId, h: HandleId)
    requires FullInv(s) && Enabled(s, a) && (a.Store? || a.ClearMap? || a.Managers?)
    requires h < |s.handles| && !Free(s, h) && (HeldBy(s, m, h) || a == Store(m, h))
    requires !(Reached(Step(s, a), m) && HeldBy(Step(s, a), m, h))
    ensures h < |Step(s, a).handles| && !Accounted(Step(s, a), h)
  {
    var t := Step(s, a);
    if Free(t, h) {
      FreeBefore(s, a, h);
    }
    forall p | p in t.storing ensures p.1 != h {
      assert p in s.storing && a != Store(p.0, p.1);
      assert a == Store(m, h) ==> (m, h) in s.storing;
    }
    forall n: ManagerId | HeldBy(t, n, h) ensures n == m {
      HeldBefore(s, a, n, h);
      assert a == Store(m, h) ==> (m, h) in s.storing;
    }
  }

  lemma UnguardedStoreLoses(s: State, m: ManagerId, h: HandleId)
    requires FullInv(s) && Enabled(s, Store(m, h)) && !Guarded(s, Store(m, h))
    ensures !AllAccounted(Step(s, Store(m, h)))
  {
    if Reached(s, m) || Free(s, h) {
      var g := s.managers[m].terminals[s.handles[h].id];
      assert Belongs(s, g, s.managers[m].session);
      assert HeldBy(s, m, g) && (m, h) in s.storing;
      NowhereIsLost(s, Store(m, h), m, g);
    } else {
      assert Reached(Step(s, Store(m, h)), m) == Reached(s, m);
      NowhereIsLost(s, Store(m, h), m, h);
    }
  }

  lemma UnguardedClearLoses(s: State, a: Action, m: ManagerId)
    requires FullInv(s) && Enabled(s, a) && m < |s.managers| && !AllFree(s, m)
    requires a.ClearMap? || (a.Managers? && a.action.ClearAll?)
    requires a.ClearMap? ==> s.snapshots[a.thread].manager == m
    requires a.Managers? ==> !Kept(s, m)
    ensures !AllAccounted(Step(s, a))
  {
    var h :| h in s.managers[m].terminals.Values && !Free(s, h);
    assert Belongs(s, h, s.managers[m].session) && HeldBy(s, m, h);
    NowhereIsLost(s, a, m, h);
  }

  /** The exact condition, step by step. */
  lemma StepKeepsAccountedIff(s: State, a: Action)
    requires FullInv(s) && AllAccounted(s) && Enabled(s, a)
    ensures AllAccounted(Step(s, a)) <==> Guarded(s, a)
  {
    if Guarded(s, a) {
      forall h: HandleId | h < |Step(s, a).handles| ensures Accounted(Step(s, a), h) {
        GuardedStepKeepsAccounted(s, a, h);
      }
    } else {
      match a
      case Store(m, h) => UnguardedStoreLoses(s, m, h);
      case ClearMap(t) => UnguardedClearLoses(s, a, s.snapshots[t].manager);
      case Managers(_) =>
        var m: ManagerId :| m < |s.managers| && IsCurrent(s, m) && !Kept(s, m) && !AllFree(s, m);
        UnguardedClearLoses(s, a, m);
    }
  }

  // ---- Whole runs ----

  /** No state of the run has lost a handle. */
  ghost predicate NeverLoses(s: State, actions: seq<Action>)
    decreases |actions|
  {
    && AllAccounted(s)
    && (actions != [] ==> Enabled(s, actions[0]) && NeverLoses(Step(s, actions[0]), actions[1..]))
  }

  ghost predicate AlwaysGuarded(s: State, actions: seq<Action>)
    decreases |actions|
  {
    actions != [] ==>
      && Enabled(s, actions[0]) && Guarded(s, actions[0])
      && AlwaysGuarded(Step(s, actions[0]), actions[1..])
  }

  lemma {:induction false} NeverLosesIffGuarded(s: State, actions: seq<Action>, t: State)
    requires FullInv(s) && AllAccounted(s) && Executes(s, actions, t)
    ensures NeverLoses(s, actions) <==> AlwaysGuarded(s, actions)
    ensures AlwaysGuarded(s, actions) ==> FullInv(t) && AllAccounted(t)
    decreases |actions|
  {
    if actions != [] {
      StepKeepsFullInv(s, actions[0]);
      StepKeepsAccountedIff(s, actions[0]);
      if Guarded(s, actions[0]) {
        NeverLosesIffGuarded(Step(s, actions[0]), actions[1..], t);
      }
    }
  }

  /** Over any interleaving, every handle made is at every moment about to be stored, in the map of a
      manager that can be found, or released or certain to be, iff each step of the run is guarded. */
  lemma NothingIsLostIffGuarded(actions: seq<Action>, t: State)
    requires Executes(INITIAL, actions, t)
    ensures NeverLoses(INITIAL, actions) <==> AlwaysGuarded(INITIAL, actions)
  {
    NeverLosesIffGuarded(INITIAL, actions, t);
  }

  // ---- A discipline that suffices ----

  /** Callers can follow this without looking at what others have seen: a terminal goes to a manager that
      can be found, over none that is not free, and not between the `GetAll` and the `Clear` of a
      `ReleaseAll` of it; no manager is made between those of a session-level `ReleaseAll`. */
  predicate Careful(s: State, a: Action)
    requires Enabled(s, a)
  {
    match a
    case Store(m, _) => Guarded(s, a) && forall t <- s.snapshots :: s.snapshots[t].manager != m
    case Managers(LoadOrStore(session)) => session in s.registry.current || s.registry.lists == map[]
    case _ => true
  }

  ghost predicate ExecutesCarefully(s: State, actions: seq<Action>, t: State)
    decreases |actions|
  {
    if actions == [] then s == t
    else && Enabled(s, actions[0]) && Careful(s, actions[0])
         && ExecutesCarefully(Step(s, actions[0]), actions[1..], t)
  }

  /** What a `Clear` of a manager is about to drop was seen by its `GetAll`. */
  predicate SnapshotsCover(s: State) {
    forall t <- s.snapshots | s.snapshots[t].manager < |s.managers| ::
      s.managers[s.snapshots[t].manager].terminals.Values <= s.snapshots[t].handles
  }

  /** The same of the map of managers. */
  predicate ListsCover(s: State) {
    forall t <- s.registry.lists :: s.registry.current.Values <= s.registry.lists[t]
  }

  lemma CarefulStepKeepsSnapshots(s: State, a: Action)
    requires Inv(s) && SnapshotsCover(s) && Enabled(s, a) && Careful(s, a)
    ensures SnapshotsCover(Step(s, a))
  {
    var t := Step(s, a);
    forall u | u in t.snapshots && t.snapshots[u].manager < |t.managers|
      ensures t.managers[t.snapshots[u].manager].terminals.Values <= t.snapshots[u].handles
    {
      var m := t.snapshots[u].manager;
      assert m < |s.managers|;
      assert t.managers[m].terminals.Values <= s.managers[m].terminals.Values;
    }
  }

  lemma CarefulStepKeepsLists(s: State, a: Action)
    requires ListsCover(s) && Enabled(s, a) && Careful(s, a)
    ensures ListsCover(Step(s, a))
  {
  }

  lemma CarefulIsGuarded(s: State, a: Action)
    requires SnapshotsCover(s) && ListsCover(s) && Enabled(s, a) && Careful(s, a)
    ensures Guarded(s, a)
  {
    if a.Managers? && a.action.ClearAll? {
      forall m: ManagerId | IsCurrent(s, m) ensures Kept(s, m) {
        assert m in s.registry.current.Values && m in s.registry.lists[a.action.thread];
      }
    }
  }

  lemma {:induction false} CarefulRunsAreGuarded(s: State, actions: seq<Action>, t: State)
    requires Inv(s) && SnapshotsCover(s) && ListsCover(s) && ExecutesCarefully(s, actions, t)
    ensures Executes(s, actions, t) && AlwaysGuarded(s, actions)
    decreases |actions|
  {
    if actions != [] {
      CarefulStepKeepsSnapshots(s, actions[0]);
      CarefulStepKeepsLists(s, actions[0]);
      CarefulIsGuarded(s, actions[0]);
      StepKeepsInv(s, actions[0]);
      CarefulRunsAreGuarded(Step(s, actions[0]), actions[1..], t);
    }
  }

  /** Runs that follow the discipline lose no terminal. */
  lemma CarefulRunsDoNotLeak(actions: seq<Action>, t: State)
    requires ExecutesCarefully(INITIAL, actions, t)
    ensures NeverLoses(INITIAL, actions) && AllAccounted(t)
  {
    CarefulRunsAreGuarded(INITIAL, actions, t);
    NeverLosesIffGuarded(INITIAL, actions, t);
  }

  // ---- Runs that lose a terminal, and one that does not ----

  lemma {:induction false} OneMore(r: State, actions: seq<Action>, s: State, a: Action)
    requires Executes(r, actions, s) && Enabled(s, a)
    ensures Executes(r, actions + [a], Step(s, a))
    ensures AlwaysGuarded(r, actions + [a]) <==> AlwaysGuarded(r, actions) && Guarded(s, a)
    decreases |actions|
  {
    if actions == [] {
      assert ([a])[1..] == [] && [] + [a] == [a];
    } else {
      assert (actions + [a])[1..] == actions[1..] + [a];
      OneMore(Step(r, actions[0]), actions[1..], s, a);
    }
  }

  /** Runs from the initial state in which every step is guarded. */
  ghost predicate GuardedRun(actions: seq<Action>, s: State) {
    Executes(INITIAL, actions, s) && AlwaysGuarded(INITIAL, actions)
  }

  lemma Then(actions: seq<Action>, s: State, a: Action) returns (more: seq<Action>, t: State)
    requires GuardedRun(actions, s) && Enabled(s, a) && Guarded(s, a)
    ensures GuardedRun(more, t) && more == actions + [a] && t == Step(s, a)
  {
    more, t := actions + [a], Step(s, a);
    OneMore(INITIAL, actions, s, a);
  }

  lemma ThenLost(actions: seq<Action>, s: State, a: Action) returns (t: State)
    requires GuardedRun(actions, s) && Enabled(s, a) && !Guarded(s, a)
    ensures t == Step(s, a) && Executes(INITIAL, actions + [a], t) && !AllAccounted(t)
  {
    t := Step(s, a);
    OneMore(INITIAL, actions, s, a);
    NeverLosesIffGuarded(INITIAL, actions, s);
    StepKeepsAccountedIff(s, a);
  }

  /** A terminal stored after a `ReleaseAll` has looked. */
  lemma StoredMeanwhile(id: TerminalId, session: SessionId) returns (s: State)
    ensures GuardedRun([Managers(New(session)), GetAll(0, 0, false), Create(0, id), Store(0, 0)], s)
    ensures s == INITIAL.(handles := [Handle(id, session, false, 0)], managers := [Manager(session, map[id := 0])],
                          snapshots := map[0 := Snapshot(0, {})],
                          registry := Registry({0}, map[], map[], multiset{}))
  {
    var actions;
    actions, s := Then([], INITIAL, Managers(New(session)));
    assert s.managers[0].terminals.Values == {};
    actions, s := Then(actions, s, GetAll(0, 0, false));
    actions, s := Then(actions, s, Create(0, id));
    actions, s := Then(actions, s, Store(0, 0));
    assert actions == [Managers(New(session)), GetAll(0, 0, false), Create(0, id), Store(0, 0)];
  }

  /** A terminal stored between the `GetAll` and the `Clear` of a `ReleaseAll` is in no map, unreleased,
      and nobody is about to release it. */
  lemma SomeRaceLeaks(id: TerminalId, session: SessionId) returns (t: State)
    ensures Executes(INITIAL, [Managers(New(session)), GetAll(0, 0, false), Create(0, id), Store(0, 0), ClearMap(0)], t)
    ensures |t.handles| == 1 && !Accounted(t, 0)
  {
    var actions := [Managers(New(session)), GetAll(0, 0, false), Create(0, id), Store(0, 0)];
    var s := StoredMeanwhile(id, session);
    assert s.managers[0].terminals[id] in s.managers[0].terminals.Values && !Free(s, 0);
    t := ThenLost(actions, s, ClearMap(0));
    assert actions + [ClearMap(0)]
        == [Managers(New(session)), GetAll(0, 0, false), Create(0, id), Store(0, 0), ClearMap(0)];
  }

  /** A session taken for release while a terminal of it is being created. */
  lemma TakenMeanwhile(id: TerminalId, session: SessionId) returns (s: State)
    ensures GuardedRun([Managers(LoadOrStore(session)), Create(0, id), Managers(Take(session))], s)
    ensures s == INITIAL.(handles := [Handle(id, session, false, 0)], managers := [Manager(session, map[])],
                          storing := {(0, 0)}, registry := Registry({}, map[], map[], multiset{0}))
  {
    var actions;
    actions, s := Then([], INITIAL, Managers(LoadOrStore(session)));
    actions, s := Then(actions, s, Create(0, id));
    actions, s := Then(actions, s, Managers(Take(session)));
    assert actions == [Managers(LoadOrStore(session)), Create(0, id), Managers(Take(session))];
  }

  /** A manager in nobody's map that is due for release, and a terminal on its way into it. */
  function DueMeanwhile(id: TerminalId, session: SessionId): State {
    INITIAL.(handles := [Handle(id, session, false, 0)], managers := [Manager(session, map[])],
             storing := {(0, 0)}, registry := Registry({}, map[], map[], multiset{0}))
  }

  /** The terminal arrives after the release. */
  lemma StoredTooLate(before: seq<Action>, id: TerminalId, session: SessionId) returns (t: State)
    requires GuardedRun(before, DueMeanwhile(id, session))
    ensures Executes(INITIAL, before + [GetAll(0, 0, true), ClearMap(0), Store(0, 0)], t)
    ensures |t.handles| == 1 && !Accounted(t, 0)
  {
    var s := DueMeanwhile(id, session);
    assert s.managers[0].terminals.Values == {};
    var actions;
    actions, s := Then(before, s, GetAll(0, 0, true));
    actions, s := Then(actions, s, ClearMap(0));
    assert !Reached(s, 0) && !Free(s, 0);
    t := ThenLost(actions, s, Store(0, 0));
    assert actions + [Store(0, 0)] == before + [GetAll(0, 0, true), ClearMap(0), Store(0, 0)];
  }

  /** So is one whose creation is under way while its session is released: the manager it is stored in
      is gone from the map of managers, and has been released already. */
  lemma SomeSessionReleaseLeaks(id: TerminalId, session: SessionId) returns (t: State)
    ensures Executes(INITIAL, [Managers(LoadOrStore(session)), Create(0, id), Managers(Take(session))]
                              + [GetAll(0, 0, true), ClearMap(0), Store(0, 0)], t)
    ensures |t.handles| == 1 && !Accounted(t, 0)
  {
    var s := TakenMeanwhile(id, session);
    t := StoredTooLate([Managers(LoadOrStore(session)), Create(0, id), Managers(Take(session))], id, session);
  }

  /** A manager taken by a session-level `ReleaseAll` while a terminal of it is being created. */
  lemma ListedMeanwhile(id: TerminalId, session: SessionId) returns (s: State)
    ensures GuardedRun([Managers(LoadOrStore(session)), Create(0, id), Managers(ListAll(0)), Managers(ClearAll(0))], s)
    ensures s == INITIAL.(handles := [Handle(id, session, false, 0)], managers := [Manager(session, map[])],
                          storing := {(0, 0)}, registry := Registry({}, map[], map[], multiset{0}))
  {
    var actions;
    actions, s := Then([], INITIAL, Managers(LoadOrStore(session)));
    actions, s := Then(actions, s, Create(0, id));
    assert s.registry.current.Values == {0};
    actions, s := Then(actions, s, Managers(ListAll(0)));
    assert 0 in s.registry.lists[0] && multiset({0}) == multiset{0};
    actions, s := Then(actions, s, Managers(ClearAll(0)));
    assert actions == [Managers(LoadOrStore(session)), Create(0, id), Managers(ListAll(0)), Managers(ClearAll(0))];
  }

  /** The same with a `ReleaseAll` of all sessions. */
  lemma SomeReleaseOfAllLeaks(id: TerminalId, session: SessionId) returns (t: State)
    ensures Executes(INITIAL, [Managers(LoadOrStore(session)), Create(0, id),
                               Managers(ListAll(0)), Managers(ClearAll(0))]
                              + [GetAll(0, 0, true), ClearMap(0), Store(0, 0)], t)
    ensures |t.handles| == 1 && !Accounted(t, 0)
  {
    var s := ListedMeanwhile(id, session);
    t := StoredTooLate([Managers(LoadOrStore(session)), Create(0, id), Managers(ListAll(0)), Managers(ClearAll(0))],
                       id, session);
  }

  /** Two terminals made under one id, the first of which a `ReleaseAll` has seen. */
  lemma SeenMeanwhile(id: TerminalId, session: SessionId) returns (s: State)
    ensures GuardedRun([Managers(New(session)), Create(0, id), Store(0, 0), GetAll(0, 0, false), Create(0, id)], s)
    ensures s == INITIAL.(handles := [Handle(id, session, false, 0), Handle(id, session, false, 0)],
                          managers := [Manager(session, map[id := 0])], storing := {(0, 1)},
                          snapshots := map[0 := Snapshot(0, {0})],
                          registry := Registry({0}, map[], map[], multiset{}))
  {
    var actions;
    actions, s := Then([], INITIAL, Managers(New(session)));
    actions, s := Then(actions, s, Create(0, id));
    actions, s := Then(actions, s, Store(0, 0));
    assert s.managers[0].terminals == map[id := 0] && s.managers[0].terminals.Values == {0};
    actions, s := Then(actions, s, GetAll(0, 0, false));
    actions, s := Then(actions, s, Create(0, id));
    assert actions == [Managers(New(session)), Create(0, id), Store(0, 0), GetAll(0, 0, false), Create(0, id)];
  }

  /** The second one stored over the first, and taken out again. */
  lemma OverwrittenMeanwhile(id: TerminalId, session: SessionId) returns (actions: seq<Action>, s: State)
    ensures actions == [Managers(New(session)), Create(0, id), Store(0, 0), GetAll(0, 0, false), Create(0, id)]
                       + [Store(0, 1)] + [LoadAndDelete(0, id)]
    ensures GuardedRun(actions, s)
    ensures s == INITIAL.(handles := [Handle(id, session, false, 0), Handle(id, session, false, 0)],
                          managers := [Manager(session, map[])], snapshots := map[0 := Snapshot(0, {0})],
                          releasing := multiset{1}, registry := Registry({0}, map[], map[], multiset{}))
  {
    actions := [Managers(New(session)), Create(0, id), Store(0, 0), GetAll(0, 0, false), Create(0, id)];
    s := SeenMeanwhile(id, session);
    assert 0 in s.snapshots && 0 in s.snapshots[0].handles;
    actions, s := Then(actions, s, Store(0, 1));
    actions, s := Then(actions, s, LoadAndDelete(0, id));
  }

  lemma ClearedMeanwhile(before: seq<Action>, s: State) returns (actions: seq<Action>, t: State)
    requires GuardedRun(before, s) && s.snapshots == map[0 := Snapshot(0, {0})] && s.releasing == multiset{1}
    requires |s.managers| == 1 && s.managers[0].terminals == map[]
    ensures actions == before + [ClearMap(0)] && GuardedRun(actions, t)
    ensures t.handles == s.handles && t.sending == s.sending && t.releasing == multiset{0, 1}
  {
    assert s.managers[0].terminals.Values == {};
    actions, t := Then(before, s, ClearMap(0));
    assert multiset({0}) == multiset{0};
  }

  /** Overwriting a terminal that is not released loses nothing if a `ReleaseAll` has seen it: in this
      run both get released. */
  lemma OverwritingSeenLosesNothing(id: TerminalId, session: SessionId) returns (actions: seq<Action>, t: State)
    ensures actions == [Managers(New(session)), Create(0, id), Store(0, 0), GetAll(0, 0, false), Create(0, id)]
                       + [Store(0, 1)] + [LoadAndDelete(0, id)]
                       + [ClearMap(0)] + [CompareAndSwap(0)] + [CompareAndSwap(1)]
    ensures Executes(INITIAL, actions, t) && NeverLoses(INITIAL, actions)
    ensures t.handles == [Handle(id, session, true, 0), Handle(id, session, true, 0)] && t.sending == multiset{0, 1}
  {
    actions, t := OverwrittenMeanwhile(id, session);
    actions, t := ClearedMeanwhile(actions, t);
    actions, t := Then(actions, t, CompareAndSwap(0));
    actions, t := Then(actions, t, CompareAndSwap(1));
    NothingIsLostIffGuarded(actions, t);
  }
}
