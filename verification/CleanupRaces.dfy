/**
  `CreateSession`, `DeleteSession` and any number of `CleanupInactiveSessions` of `acp/session.go`
  under interleaving, with the delete callbacks they schedule. A clean-up picks idle sessions from one
  snapshot of the map, then removes their ids one by one, then schedules the callback for each session
  it picked; it does not look whether the session is still there. A callback is registered throughout.
 */
module CleanupRaces {
  type SessionId = string

  /** A session object, by the number of sessions made before it. */
  type Session = nat

  /** `ids[x]` is the id of session `x`. `removing`: picked by a clean-up that has not removed the id
      yet. `calling`: id removed, callback not scheduled yet. `cleaned` is the total that clean-ups
      report, `dropped` the number of sessions they took out of the map. */
  datatype State = State(
    ids: seq<SessionId>,
    sessions: map<SessionId, Session>,
    removing: multiset<Session>,
    calling: multiset<Session>,
    scheduled: multiset<Session>,
    cleaned: nat,
    dropped: nat)

  const INITIAL := State([], map[], multiset{}, multiset{}, multiset{}, 0, 0)

  datatype Action =
    | Create(id: SessionId)
    | Delete(id: SessionId)
    | Pick(idle: set<Session>)
    | RemoveIdle(session: Session)
    | Call(session: Session)

  predicate Enabled(s: State, a: Action) {
    match a
    case Create(_) => true
    case Delete(_) => true
    case Pick(idle) => idle <= s.sessions.Values
    case RemoveIdle(x) => x in s.removing && x < |s.ids|
    case Call(x) => x in s.calling
  }

  function Step(s: State, a: Action): State
    requires Enabled(s, a)
  {
    match a
    case Create(id) =>
      if id in s.sessions then s else s.(ids := s.ids + [id], sessions := s.sessions[id := |s.ids|])
    case Delete(id) =>
      if id !in s.sessions then s
      else s.(sessions := s.sessions - {id}, scheduled := s.scheduled + multiset{s.sessions[id]})
    case Pick(idle) => s.(removing := s.removing + multiset(idle))
    case RemoveIdle(x) =>
      s.(sessions := s.sessions - {s.ids[x]}, removing := s.removing - multiset{x}, calling := s.calling + multiset{x},
         cleaned := s.cleaned + 1, dropped := s.dropped + if s.ids[x] in s.sessions then 1 else 0)
    case Call(x) => s.(calling := s.calling - multiset{x}, scheduled := s.scheduled + multiset{x})
  }

  ghost predicate Executes(s: State, actions: seq<Action>, t: State)
    decreases |actions|
  {
    if actions == [] then s == t
    else Enabled(s, actions[0]) && Executes(Step(s, actions[0]), actions[1..], t)
  }

  // ---- One callback for each session ----

  predicate Stored(s: State, x: Session) {
    x < |s.ids| && s.ids[x] in s.sessions && s.sessions[s.ids[x]] == x
  }

  /** Delete callbacks scheduled for `x`, or certain to be. */
  function Callbacks(s: State, x: Session): nat {
    s.removing[x] + s.calling[x] + s.scheduled[x]
  }

  /** A session gone from the map gets one delete callback; one still there is due for one at most. */
  predicate Accounted(s: State, x: Session) {
    if Stored(s, x) then Callbacks(s, x) <= 1 else Callbacks(s, x) == 1
  }

  predicate OneCallbackEach(s: State) {
    forall x: Session | x < |s.ids| :: Accounted(s, x)
  }

  predicate Inv(s: State) {
    && (forall id <- s.sessions :: s.sessions[id] < |s.ids| && s.ids[s.sessions[id]] == id)
    && (forall x <- s.removing :: x < |s.ids|)
    && (forall x <- s.calling :: x < |s.ids| && !Stored(s, x))
    && (forall x <- s.scheduled :: x < |s.ids| && !Stored(s, x))
  }

  lemma StoredBefore(s: State, a: Action, x: Session)
    requires Inv(s) && Enabled(s, a) && Stored(Step(s, a), x)
    ensures Stored(s, x) || x == |s.ids|
    ensures !(a.Delete? && x < |s.ids| && s.ids[x] == a.id)
    ensures !(a.RemoveIdle? && x == a.session)
  {
  }

  lemma StepKeepsInv(s: State, a: Action)
    requires Inv(s) && Enabled(s, a)
    ensures Inv(Step(s, a))
  {
    var t := Step(s, a);
    forall x | x in t.calling || x in t.scheduled ensures x < |t.ids| && !Stored(t, x) {
      if Stored(t, x) {
        StoredBefore(s, a, x);
      }
    }
  }

  /** What session `x` needs of a step: a deletion does not hit it, nor another clean-up pick it, while
      a clean-up that picked it has still to remove it; and it does not fall to the removal of an older
      session with its id, unless it was picked too. */
  predicate Fair(s: State, a: Action, x: Session)
    requires Enabled(s, a)
  {
    match a
    case Delete(id) => Stored(s, x) && s.ids[x] == id ==> x !in s.removing
    case Pick(idle) => x in idle ==> x !in s.removing
    case RemoveIdle(y) => Stored(s, x) && s.ids[x] == s.ids[y] && x != y ==> x in s.removing
    case _ => true
  }

  predicate FairToAll(s: State, a: Action)
    requires Enabled(s, a)
  {
    forall x: Session | x < |s.ids| :: Fair(s, a, x)
  }

  lemma StaysAccountedIff(s: State, a: Action, x: Session)
    requires Inv(s) && Enabled(s, a) && x < |s.ids| && Accounted(s, x)
    ensures Accounted(Step(s, a), x) <==> Fair(s, a, x)
  {
    assert Stored(s, x) ==> x !in s.calling && x !in s.scheduled;
  }

  lemma StepKeepsOneCallbackIff(s: State, a: Action)
    requires Inv(s) && OneCallbackEach(s) && Enabled(s, a)
    ensures OneCallbackEach(Step(s, a)) <==> FairToAll(s, a)
  {
    var t := Step(s, a);
    forall x: Session | x < |s.ids| ensures Accounted(t, x) <==> Fair(s, a, x) {
      StaysAccountedIff(s, a, x);
    }
    if |t.ids| > |s.ids| {
      assert Stored(t, |s.ids|) && Callbacks(t, |s.ids|) == 0;
    }
  }

  ghost predicate AlwaysOneCallbackEach(s: State, actions: seq<Action>)
    decreases |actions|
  {
    && OneCallbackEach(s)
    && (actions != [] ==> Enabled(s, actions[0]) && AlwaysOneCallbackEach(Step(s, actions[0]), actions[1..]))
  }

  ghost predicate AlwaysFair(s: State, actions: seq<Action>)
    decreases |actions|
  {
    actions != [] ==>
      && Enabled(s, actions[0]) && FairToAll(s, actions[0])
      && AlwaysFair(Step(s, actions[0]), actions[1..])
  }

  lemma {:induction false} AlwaysOneIffFair(s: State, actions: seq<Action>, t: State)
    requires Inv(s) && OneCallbackEach(s) && Executes(s, actions, t)
    ensures AlwaysOneCallbackEach(s, actions) <==> AlwaysFair(s, actions)
    decreases |actions|
  {
    if actions != [] {
      StepKeepsInv(s, actions[0]);
      StepKeepsOneCallbackIff(s, actions[0]);
      if FairToAll(s, actions[0]) {
        AlwaysOneIffFair(Step(s, actions[0]), actions[1..], t);
      }
    }
  }

  /** Over any interleaving: at every moment each session that has left the map has, or is certain to
      get, its one delete callback, and no other has more than one coming, iff each step of the run is
      fair to every session. */
  lemma OneCallbackIffFair(actions: seq<Action>, t: State)
    requires Executes(INITIAL, actions, t)
    ensures AlwaysOneCallbackEach(INITIAL, actions) <==> AlwaysFair(INITIAL, actions)
  {
    AlwaysOneIffFair(INITIAL, actions, t);
  }

  // ---- The count that clean-ups report ----

  /** Each removal by a clean-up finds some session under the id. */
  ghost predicate AlwaysHits(s: State, actions: seq<Action>)
    decreases |actions|
  {
    actions != [] ==>
      && Enabled(s, actions[0])
      && (actions[0].RemoveIdle? ==> s.ids[actions[0].session] in s.sessions)
      && AlwaysHits(Step(s, actions[0]), actions[1..])
  }

  /** Clean-ups never report too few; they report as many as they took out of the map iff none of them
      came too late for an id. */
  lemma {:induction false} CountIsExactIff(s: State, actions: seq<Action>, t: State)
    requires Executes(s, actions, t)
    ensures t.cleaned - t.dropped >= s.cleaned - s.dropped
    ensures t.cleaned - t.dropped == s.cleaned - s.dropped <==> AlwaysHits(s, actions)
    decreases |actions|
  {
    if actions != [] {
      CountIsExactIff(Step(s, actions[0]), actions[1..], t);
    }
  }

  lemma ExecutesFrom(s: State, a: Action, actions: seq<Action>, t: State)
    requires Enabled(s, a) && Executes(Step(s, a), actions, t)
    ensures Executes(s, [a] + actions, t)
  {
    assert ([a] + actions)[1..] == actions;
  }

  /** A session that a clean-up has picked. */
  function Picked(id: SessionId): State {
    INITIAL.(ids := [id], sessions := map[id := 0], removing := multiset{0})
  }

  lemma DeletedLate(id: SessionId) returns (actions: seq<Action>, t: State)
    ensures Executes(Picked(id), actions, t) && t.scheduled == multiset{0, 0} && t.cleaned == 1 && t.dropped == 0
  {
    var s := Picked(id);
    var deleted := Step(s, Delete(id));
    var removed := Step(deleted, RemoveIdle(0));
    t := Step(removed, Call(0));
    ExecutesFrom(removed, Call(0), [], t);
    ExecutesFrom(deleted, RemoveIdle(0), [Call(0)], t);
    actions := [Delete(id)] + ([RemoveIdle(0)] + [Call(0)]);
    ExecutesFrom(s, Delete(id), [RemoveIdle(0)] + [Call(0)], t);
  }

  /** A `DeleteSession` between a clean-up's decision and its removal: the callback is scheduled twice
      for one session, and the clean-up reports one session and removes none. */
  lemma SomeSessionIsCalledTwice(id: SessionId)
    ensures exists actions, t ::
              Executes(INITIAL, actions, t) && t.scheduled == multiset{0, 0} && t.cleaned == 1 && t.dropped == 0
  {
    var actions, t := DeletedLate(id);
    var created := Step(INITIAL, Create(id));
    assert created.sessions.Values == {0} && multiset({0}) == multiset{0};
    assert Step(created, Pick({0})) == Picked(id);
    ExecutesFrom(created, Pick({0}), actions, t);
    ExecutesFrom(INITIAL, Create(id), [Pick({0})] + actions, t);
  }
}
