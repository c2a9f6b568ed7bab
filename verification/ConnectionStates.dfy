/** The connection state machine and its callbacks, `acp/connection_core.go`. */
module ConnectionStates {
  import opened Wrappers
  import Slices

  datatype ConnectionState = Uninitialized | Initialized | Authenticated | SessionReady

  /** `stateTransitions` */
  function Successors(from: ConnectionState): seq<ConnectionState> {
    match from
    case Uninitialized => [Initialized]
    case Initialized => [Authenticated, SessionReady]
    case Authenticated => [SessionReady]
    case SessionReady => [SessionReady]
  }

  lemma TableHasFiveEntries(from: ConnectionState, to: ConnectionState)
    ensures to in Successors(from) <==>
            (from, to) in {(Uninitialized, Initialized), (Initialized, Authenticated), (Initialized, SessionReady),
                           (Authenticated, SessionReady), (SessionReady, SessionReady)}
  {
  }

  /** A registered callback, by identity. */
  type Callback = nat

  /** One invocation of a callback. */
  datatype Notice = Notice(callback: Callback, from: ConnectionState, to: ConnectionState)

  function Notices(callbacks: seq<Callback>, from: ConnectionState, to: ConnectionState): seq<Notice> {
    seq(|callbacks|, i requires 0 <= i < |callbacks| => Notice(callbacks[i], from, to))
  }

  // ---- Specification: what a serial run does ----

  datatype Change = Change(from: ConnectionState, to: ConnectionState)

  /** The state, the registry, and the history of changes and of callback invocations. */
  datatype Model = Model(state: ConnectionState, callbacks: seq<Callback>, changes: seq<Change>, notices: seq<Notice>)

  datatype Event = Register(callback: Callback) | Request(to: ConnectionState)

  const FRESH := Model(Uninitialized, [], [], [])

  function Apply(m: Model, event: Event): Model {
    match event
    case Register(callback) => m.(callbacks := m.callbacks + [callback])
    case Request(to) =>
      if to in Successors(m.state)
      then Model(to, m.callbacks, m.changes + [Change(m.state, to)], m.notices + Notices(m.callbacks, m.state, to))
      else m
  }

  function After(m: Model, events: seq<Event>): Model {
    if events == [] then m else Apply(After(m, events[..|events| - 1]), events[|events| - 1])
  }

  // ---- The connection ----

  class ConnectionCore {
    var state: ConnectionState
    const callbacks: Slices.SyncSlice<Callback>
    /** Every callback invocation so far; stands for the effect of running the callbacks. */
    var notices: seq<Notice>
    ghost var changes: seq<Change>

    ghost predicate Valid()
      reads this, callbacks
    {
      callbacks.Valid()
    }

    ghost function View(): Model
      requires Valid()
      reads this, callbacks, callbacks.data
    {
      Model(state, callbacks.Elements(), changes, notices)
    }

    constructor ()
      ensures Valid() && fresh(callbacks) && fresh(callbacks.data) && View() == FRESH
    {
      state, notices, changes := Uninitialized, [], [];
      callbacks := new Slices.SyncSlice<Callback>();
    }

    method OnStateChange(callback: Callback)
      requires Valid()
      modifies callbacks, callbacks.data
      ensures Valid() && View() == Apply(old(View()), Register(callback))
    {
      callbacks.Append(callback);
    }

    method CanTransitionTo(newState: ConnectionState) returns (can: bool)
      ensures can <==> newState in Successors(state)
    {
      var validStates := Successors(state);
      for i := 0 to |validStates|
        invariant newState !in validStates[..i]
      {
        if validStates[i] == newState {
          return true;
        }
      }
      return false;
    }

    method SetState(newState: ConnectionState)
      requires Valid()
      modifies this
      ensures Valid() && state == newState
      ensures notices == old(notices) + Notices(callbacks.Elements(), old(state), newState)
      ensures changes == old(changes) + [Change(old(state), newState)]
    {
      var oldState := state;
      state := newState;
      changes := changes + [Change(oldState, newState)];
      var snapshot := callbacks.GetAll();
      if snapshot != null {
        for i := 0 to snapshot.Length
          invariant callbacks.Valid() && snapshot[..] == callbacks.Elements()
          invariant state == newState && changes == old(changes) + [Change(oldState, newState)]
          invariant notices == old(notices) + Notices(snapshot[..i], oldState, newState)
        {
          notices := notices + [Notice(snapshot[i], oldState, newState)];
        }
      }
    }

    /** A rejected request is an error and changes nothing. */
    method TransitionTo(newState: ConnectionState) returns (r: Result<(), string>)
      requires Valid()
      modifies this
      ensures Valid() && View() == Apply(old(View()), Request(newState))
      ensures r.Ok? <==> newState in Successors(old(state))
    {
      var can := CanTransitionTo(newState);
      if !can {
        return Err("invalid state transition");
      }
      SetState(newState);
      r := Ok(());
    }
  }

  // ---- Serial runs ----

  function Rank(s: ConnectionState): nat {
    match s case Uninitialized => 0 case Initialized => 1 case Authenticated => 2 case SessionReady => 3
  }

  /** Consecutive changes chain, from `first` to `last`. */
  predicate Chained(first: ConnectionState, changes: seq<Change>, last: ConnectionState) {
    if changes == [] then first == last
    else && changes[|changes| - 1].to == last
         && Chained(first, changes[..|changes| - 1], changes[|changes| - 1].from)
  }

  predicate InTable(changes: seq<Change>) {
    forall c <- changes :: c.to in Successors(c.from)
  }

  /** Over any serial run the changes are a path through the transition table from Uninitialized to
      the current state. */
  lemma {:induction false} ChangesArePath(events: seq<Event>)
    ensures var m := After(FRESH, events); Chained(Uninitialized, m.changes, m.state) && InTable(m.changes)
  {
    if events != [] {
      var m := After(FRESH, events[..|events| - 1]);
      ChangesArePath(events[..|events| - 1]);
      var t := After(FRESH, events);
      if t.changes != m.changes {
        assert t.changes[..|t.changes| - 1] == m.changes;
      }
    }
  }

  lemma TableNeverStepsBack(c: Change)
    requires c.to in Successors(c.from)
    ensures Rank(c.from) <= Rank(c.to) && (c.from == SessionReady ==> c.to == SessionReady)
  {
  }

  /** No later state ranks lower, and SessionReady is never left. */
  lemma {:induction false} NeverStepsBack(first: ConnectionState, changes: seq<Change>, last: ConnectionState, i: nat)
    requires Chained(first, changes, last) && InTable(changes) && i < |changes|
    ensures Rank(changes[i].from) <= Rank(changes[i].to) <= Rank(last)
    ensures changes[i].to == SessionReady ==> last == SessionReady
    decreases |changes|
  {
    var n := |changes| - 1;
    assert changes[n] in changes && changes[i] in changes;
    TableNeverStepsBack(changes[i]);
    TableNeverStepsBack(changes[n]);
    if i < n {
      var earlier := changes[..n];
      assert forall c <- earlier :: c in changes;
      NeverStepsBack(first, earlier, changes[n].from, i);
    }
  }

  /** What one callback is told, in order. */
  function ToldTo(callback: Callback, notices: seq<Notice>): seq<Change> {
    if notices == [] then []
    else
      var n := notices[|notices| - 1];
      ToldTo(callback, notices[..|notices| - 1]) + (if n.callback == callback then [Change(n.from, n.to)] else [])
  }

  lemma {:induction false} ToldToConcat(callback: Callback, a: seq<Notice>, b: seq<Notice>)
    ensures ToldTo(callback, a + b) == ToldTo(callback, a) + ToldTo(callback, b)
    decreases |b|
  {
    if b == [] {
      assert a + b == a;
    } else {
      assert (a + b)[..|a + b| - 1] == a + b[..|b| - 1];
      ToldToConcat(callback, a, b[..|b| - 1]);
    }
  }

  /** How often a callback is registered. */
  function Registrations(callbacks: seq<Callback>, callback: Callback): nat {
    if callbacks == [] then 0
    else
      var n := |callbacks| - 1;
      Registrations(callbacks[..n], callback) + (if callbacks[n] == callback then 1 else 0)
  }

  /** Each change tells a callback that was registered once exactly once. */
  lemma {:induction false} ToldOnce(callback: Callback, callbacks: seq<Callback>, from: ConnectionState,
                                    to: ConnectionState)
    ensures Registrations(callbacks, callback) == 0 ==> ToldTo(callback, Notices(callbacks, from, to)) == []
    ensures Registrations(callbacks, callback) == 1 ==>
            ToldTo(callback, Notices(callbacks, from, to)) == [Change(from, to)]
    decreases |callbacks|
  {
    if callbacks != [] {
      var n := |callbacks| - 1;
      assert Notices(callbacks, from, to)[..n] == Notices(callbacks[..n], from, to);
      ToldOnce(callback, callbacks[..n], from, to);
    }
  }

  /** A callback registered once is told of an event exactly if it changes the state. */
  lemma EventTells(m: Model, callback: Callback, event: Event)
    requires Registrations(m.callbacks, callback) == 1 && event != Register(callback)
    ensures var t := Apply(m, event);
            && m.changes <= t.changes && Registrations(t.callbacks, callback) == 1
            && ToldTo(callback, t.notices) == ToldTo(callback, m.notices) + t.changes[|m.changes|..]
  {
    if event.Request? && event.to in Successors(m.state) {
      ToldToConcat(callback, m.notices, Notices(m.callbacks, m.state, event.to));
      ToldOnce(callback, m.callbacks, m.state, event.to);
    }
  }

  lemma {:induction false} UnregisteredHearsNothing(callback: Callback, events: seq<Event>)
    requires Register(callback) !in events
    ensures var m := After(FRESH, events);
            Registrations(m.callbacks, callback) == 0 && ToldTo(callback, m.notices) == []
    decreases |events|
  {
    if events != [] {
      var n := |events| - 1;
      UnregisteredHearsNothing(callback, events[..n]);
      var m := After(FRESH, events[..n]);
      assert events[n] in events;
      if events[n].Request? && events[n].to in Successors(m.state) {
        ToldToConcat(callback, m.notices, Notices(m.callbacks, m.state, events[n].to));
        ToldOnce(callback, m.callbacks, m.state, events[n].to);
      }
    }
  }

  /** A callback registered once, at any point of any run, is told of precisely the changes made
      since, in order: no earlier one, none skipped, none twice. */
  lemma {:induction false} CallbackSeesEveryLaterChange(before: seq<Event>, callback: Callback, later: seq<Event>)
    requires Register(callback) !in before && Register(callback) !in later
    ensures var m := After(FRESH, before);
            var t := After(Apply(m, Register(callback)), later);
            && m.changes <= t.changes
            && ToldTo(callback, t.notices) == t.changes[|m.changes|..]
            && Registrations(t.callbacks, callback) == 1
    decreases |later|
  {
    var m := After(FRESH, before);
    if later == [] {
      UnregisteredHearsNothing(callback, before);
    } else {
      var n := |later| - 1;
      CallbackSeesEveryLaterChange(before, callback, later[..n]);
      EventTells(After(Apply(m, Register(callback)), later[..n]), callback, later[n]);
    }
  }
}
