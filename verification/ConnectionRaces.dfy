/**
  `transitionTo` and `OnStateChange` of `acp/connection_core.go` for any number of goroutines, split
  at their atomic actions: the check, the swap, the copy of the registry that the swapping goroutine
  then takes, and each call of a callback. No lock is held from one of them to the next.
 */
module ConnectionRaces {
  import opened ConnectionStates

  /** How far the goroutine that made a change is: its swap is done but it has not copied the
      registry, or it has called the first `told` callbacks of its copy. */
  datatype Telling = Unread | Reading(snapshot: seq<Callback>, told: nat)

  /** A call of `callback` with the two states of change number `change`. */
  datatype Told = Told(callback: Callback, change: nat)

  /** `pending` are the requests that passed the check and have not swapped yet; `tellings` goes
      along with `changes`; `calls` is the history of callback invocations. */
  datatype Race = Race(
    state: ConnectionState,
    pending: multiset<ConnectionState>,
    callbacks: seq<Callback>,
    changes: seq<Change>,
    tellings: seq<Telling>,
    calls: seq<Told>)

  const START := Race(Uninitialized, multiset{}, [], [], [], [])

  datatype Move =
    | Register(callback: Callback)
    | Check(to: ConnectionState)
    | Swap(to: ConnectionState)
    | Read(change: nat)
    | Tell(change: nat)

  predicate Enabled(r: Race, move: Move) {
    match move
    case Register(_) => true
    case Check(_) => true
    case Swap(to) => to in r.pending
    case Read(k) => k < |r.tellings| && r.tellings[k].Unread?
    case Tell(k) => k < |r.tellings| && r.tellings[k].Reading? && r.tellings[k].told < |r.tellings[k].snapshot|
  }

  function Step(r: Race, move: Move): Race
    requires Enabled(r, move)
  {
    match move
    case Register(callback) => r.(callbacks := r.callbacks + [callback])
    case Check(to) => if to in Successors(r.state) then r.(pending := r.pending + multiset{to}) else r
    case Swap(to) =>
      r.(state := to, pending := r.pending - multiset{to}, changes := r.changes + [Change(r.state, to)],
         tellings := r.tellings + [Unread])
    case Read(k) => r.(tellings := r.tellings[k := Reading(r.callbacks, 0)])
    case Tell(k) =>
      var reading := r.tellings[k];
      r.(tellings := r.tellings[k := reading.(told := reading.told + 1)],
         calls := r.calls + [Told(reading.snapshot[reading.told], k)])
  }

  ghost predicate Executes(r: Race, moves: seq<Move>, t: Race)
    decreases |moves|
  {
    if moves == [] then r == t
    else Enabled(r, moves[0]) && Executes(Step(r, moves[0]), moves[1..], t)
  }

  lemma ExecutesFrom(r: Race, move: Move, moves: seq<Move>, t: Race)
    requires Enabled(r, move) && Executes(Step(r, move), moves, t)
    ensures Executes(r, [move] + moves, t)
  {
    assert ([move] + moves)[1..] == moves;
  }

  // ---- What every interleaving keeps ----

  /** The callbacks called with change `k`, in order. */
  function CalledFor(k: nat, calls: seq<Told>): seq<Callback> {
    if calls == [] then []
    else
      var last := calls[|calls| - 1];
      CalledFor(k, calls[..|calls| - 1]) + (if last.change == k then [last.callback] else [])
  }

  function ReadSoFar(telling: Telling): seq<Callback> {
    if telling.Reading? && telling.told <= |telling.snapshot| then telling.snapshot[..telling.told] else []
  }

  ghost predicate Inv(r: Race) {
    && |r.tellings| == |r.changes|
    && Chained(Uninitialized, r.changes, r.state)
    && (forall k: nat | k < |r.tellings| :: r.tellings[k].Reading? ==> r.tellings[k].told <= |r.tellings[k].snapshot|)
    && (forall k: nat | k < |r.tellings| :: CalledFor(k, r.calls) == ReadSoFar(r.tellings[k]))
    && (forall call <- r.calls :: call.change < |r.changes|)
  }

  lemma {:induction false} NobodyCalledFor(k: nat, calls: seq<Told>)
    requires forall call <- calls :: call.change != k
    ensures CalledFor(k, calls) == []
    decreases |calls|
  {
    if calls != [] {
      assert calls[|calls| - 1] in calls;
      NobodyCalledFor(k, calls[..|calls| - 1]);
    }
  }

  lemma TellKeepsInv(r: Race, k: nat)
    requires Inv(r) && Enabled(r, Tell(k))
    ensures Inv(Step(r, Tell(k)))
  {
    var t, snapshot, told := Step(r, Tell(k)), r.tellings[k].snapshot, r.tellings[k].told;
    assert t.calls[..|t.calls| - 1] == r.calls;
    assert snapshot[..told + 1] == ReadSoFar(r.tellings[k]) + [snapshot[told]];
  }

  lemma StepKeepsInv(r: Race, move: Move)
    requires Inv(r) && Enabled(r, move)
    ensures Inv(Step(r, move))
  {
    var t := Step(r, move);
    match move {
      case Swap(to) =>
        NobodyCalledFor(|r.changes|, r.calls);
        assert t.changes[..|t.changes| - 1] == r.changes;
      case Tell(k) => TellKeepsInv(r, k);
      case _ =>
    }
  }

  lemma {:induction false} ExecutionKeepsInv(r: Race, moves: seq<Move>, t: Race)
    requires Inv(r) && Executes(r, moves, t)
    ensures Inv(t)
    decreases |moves|
  {
    if moves != [] {
      StepKeepsInv(r, moves[0]);
      ExecutionKeepsInv(Step(r, moves[0]), moves[1..], t);
    }
  }

  /** However the steps of concurrent transitions and registrations interleave, each change starts
      where the one before ended. */
  lemma RacingChangesChain(moves: seq<Move>, t: Race)
    requires Executes(START, moves, t)
    ensures Chained(Uninitialized, t.changes, t.state)
  {
    ExecutionKeepsInv(START, moves, t);
  }

  /** In every interleaving the callbacks called with a change are, in order, those its goroutine has
      got through of its copy of the registry; so when it is through, each of them was called with
      that change exactly as often as it was registered. */
  lemma CallsFollowTheSnapshot(moves: seq<Move>, t: Race, k: nat)
    requires Executes(START, moves, t) && k < |t.changes|
    ensures |t.tellings| == |t.changes| && CalledFor(k, t.calls) == ReadSoFar(t.tellings[k])
    ensures t.tellings[k].Reading? && !Enabled(t, Tell(k)) ==> CalledFor(k, t.calls) == t.tellings[k].snapshot
    ensures t.tellings[k].Unread? ==> CalledFor(k, t.calls) == []
  {
    ExecutionKeepsInv(START, moves, t);
  }

  // ---- The order in which one callback hears of the changes ----

  /** The numbers of the changes that callback `c` was called with, in order. */
  function HeardBy(c: Callback, calls: seq<Told>): seq<nat> {
    if calls == [] then []
    else
      var last := calls[|calls| - 1];
      HeardBy(c, calls[..|calls| - 1]) + (if last.callback == c then [last.change] else [])
  }

  predicate InOrder(numbers: seq<nat>) {
    forall i, j :: 0 <= i < j < |numbers| ==> numbers[i] <= numbers[j]
  }

  lemma InOrderExtends(numbers: seq<nat>, k: nat)
    requires InOrder(numbers) && forall j <- numbers :: j <= k
    ensures InOrder(numbers + [k])
  {
    assert forall i :: 0 <= i < |numbers| ==> numbers[i] in numbers;
  }

  /** Change `k` is still to be told to `c`. */
  predicate Owes(r: Race, k: nat, c: Callback) {
    && k < |r.tellings|
    && match r.tellings[k]
       case Unread => c in r.callbacks
       case Reading(snapshot, told) => told <= |snapshot| && c in snapshot[told..]
  }

  predicate NothingOwed(r: Race, c: Callback) {
    forall k: nat | k < |r.tellings| :: !Owes(r, k, c)
  }

  /** A change is still to be told to `c` although a later one was told, or is to be told, too. */
  ghost predicate OutOfTurn(r: Race, c: Callback) {
    exists i: nat, j: nat :: i < j && Owes(r, i, c) && (Owes(r, j, c) || j in HeardBy(c, r.calls))
  }

  /** Moves that only finish what the changes made so far have started. */
  predicate OnlyTelling(moves: seq<Move>) {
    forall move <- moves :: move.Read? || move.Tell?
  }

  ghost predicate CompletesInOrder(r: Race, c: Callback) {
    forall moves, t :: OnlyTelling(moves) && Executes(r, moves, t) ==> InOrder(HeardBy(c, t.calls))
  }

  lemma HeardAreMade(r: Race, c: Callback, calls: seq<Told>)
    requires forall call <- calls :: call.change < |r.changes|
    ensures forall k <- HeardBy(c, calls) :: k < |r.changes|
    decreases |calls|
  {
    if calls != [] {
      assert calls[|calls| - 1] in calls;
      HeardAreMade(r, c, calls[..|calls| - 1]);
    }
  }

  lemma HeardOneMore(r: Race, k: nat, c: Callback)
    requires Inv(r) && Enabled(r, Tell(k))
    ensures HeardBy(c, Step(r, Tell(k)).calls)
         == HeardBy(c, r.calls) + (if r.tellings[k].snapshot[r.tellings[k].told] == c then [k] else [])
  {
    assert Step(r, Tell(k)).calls[..|r.calls|] == r.calls;
  }

  /** Telling one callback leaves what is owed to `c` as it was, except by that call. */
  lemma TellPays(r: Race, k: nat, i: nat, c: Callback)
    requires Inv(r) && Enabled(r, Tell(k))
    ensures Owes(Step(r, Tell(k)), i, c) ==> Owes(r, i, c)
    ensures i != k || r.tellings[k].snapshot[r.tellings[k].told] != c ==> Owes(Step(r, Tell(k)), i, c) == Owes(r, i, c)
    ensures r.tellings[k].snapshot[r.tellings[k].told] == c ==> Owes(r, k, c)
  {
    var snapshot, told := r.tellings[k].snapshot, r.tellings[k].told;
    assert snapshot[told..] == [snapshot[told]] + snapshot[told + 1..];
  }

  ghost predicate InTurn(r: Race, c: Callback) {
    InOrder(HeardBy(c, r.calls)) && !OutOfTurn(r, c)
  }

  lemma TellKeepsOrder(r: Race, k: nat, c: Callback)
    requires Inv(r) && Enabled(r, Tell(k)) && InTurn(r, c)
    ensures InOrder(HeardBy(c, Step(r, Tell(k)).calls))
  {
    HeardOneMore(r, k, c);
    TellPays(r, k, k, c);
    if Owes(r, k, c) {
      forall j | j in HeardBy(c, r.calls) ensures j <= k {
        if k < j { assert OutOfTurn(r, c); }
      }
      InOrderExtends(HeardBy(c, r.calls), k);
    }
  }

  lemma TellKeepsInTurn(r: Race, k: nat, c: Callback)
    requires Inv(r) && Enabled(r, Tell(k)) && InTurn(r, c)
    ensures InTurn(Step(r, Tell(k)), c)
  {
    var t := Step(r, Tell(k));
    TellKeepsOrder(r, k, c);
    HeardOneMore(r, k, c);
    TellPays(r, k, k, c);
    forall i: nat, j: nat | i < j && Owes(t, i, c) ensures !Owes(t, j, c) && j !in HeardBy(c, t.calls) {
      TellPays(r, k, i, c);
      TellPays(r, k, j, c);
      assert !Owes(r, j, c) && j !in HeardBy(c, r.calls);
    }
  }

  lemma SwapKeepsInTurnIff(r: Race, to: ConnectionState, c: Callback)
    requires Inv(r) && Enabled(r, Swap(to)) && InTurn(r, c) && c in r.callbacks
    ensures InTurn(Step(r, Swap(to)), c) <==> NothingOwed(r, c)
  {
    var t, n := Step(r, Swap(to)), |r.tellings|;
    assert Owes(t, n, c);
    assert forall k: nat | k < n :: Owes(t, k, c) == Owes(r, k, c);
    HeardAreMade(r, c, r.calls);
    if k: nat :| k < n && Owes(r, k, c) {
      assert OutOfTurn(t, c);
    } else {
      assert !OutOfTurn(t, c);
    }
  }

  /** The one step that can put `c` out of turn is a swap, exactly if something is still owed to `c`. */
  lemma StepKeepsInTurnIff(r: Race, move: Move, c: Callback)
    requires Inv(r) && Enabled(r, move) && InTurn(r, c) && c in r.callbacks
    ensures InTurn(Step(r, move), c) <==> (move.Swap? ==> NothingOwed(r, c))
    ensures c in Step(r, move).callbacks
  {
    var t := Step(r, move);
    match move {
      case Swap(to) => SwapKeepsInTurnIff(r, to, c);
      case Tell(k) => TellKeepsInTurn(r, k, c);
      case _ => assert forall k: nat :: Owes(t, k, c) == Owes(r, k, c);
    }
  }

  lemma {:induction false} TellingKeepsInTurn(r: Race, moves: seq<Move>, t: Race, c: Callback)
    requires Inv(r) && InTurn(r, c) && OnlyTelling(moves) && Executes(r, moves, t)
    ensures InTurn(t, c)
    decreases |moves|
  {
    if moves != [] {
      var move, next := moves[0], Step(r, moves[0]);
      assert move in moves && forall later <- moves[1..] :: later in moves;
      if move.Tell? {
        TellKeepsInTurn(r, move.change, c);
      } else {
        assert forall k: nat :: Owes(next, k, c) == Owes(r, k, c);
      }
      StepKeepsInv(r, move);
      TellingKeepsInTurn(next, moves[1..], t, c);
    }
  }

  /** The step by which the goroutine of change `k` comes closer to telling `c`. */
  lemma NextTell(r: Race, k: nat, c: Callback) returns (next: Race)
    requires Inv(r) && Owes(r, k, c) && r.tellings[k].Reading?
    ensures Enabled(r, Tell(k)) && next == Step(r, Tell(k)) && Inv(next)
    ensures forall i: nat | i != k :: Owes(next, i, c) == Owes(r, i, c)
    ensures next.tellings[k] == r.tellings[k].(told := r.tellings[k].told + 1)
    ensures if r.tellings[k].snapshot[r.tellings[k].told] == c then HeardBy(c, next.calls) == HeardBy(c, r.calls) + [k]
            else Owes(next, k, c) && HeardBy(c, next.calls) == HeardBy(c, r.calls)
  {
    next := Step(r, Tell(k));
    StepKeepsInv(r, Tell(k));
    HeardOneMore(r, k, c);
    TellPays(r, k, k, c);
  }

  lemma {:induction false} TellOn(r: Race, k: nat, c: Callback) returns (moves: seq<Move>, t: Race)
    requires Inv(r) && Owes(r, k, c) && r.tellings[k].Reading?
    ensures Inv(t) && OnlyTelling(moves) && Executes(r, moves, t)
    ensures HeardBy(c, t.calls) == HeardBy(c, r.calls) + [k]
    ensures forall i: nat | i != k :: Owes(t, i, c) == Owes(r, i, c)
    decreases |r.tellings[k].snapshot| - r.tellings[k].told
  {
    var next := NextTell(r, k, c);
    var rest := [];
    t := next;
    if r.tellings[k].snapshot[r.tellings[k].told] != c {
      rest, t := TellOn(next, k, c);
    }
    moves := [Tell(k)] + rest;
    ExecutesFrom(r, Tell(k), rest, t);
  }

  /** An owed change can be told to `c` next, by steps of its own goroutine. */
  lemma TellNext(r: Race, k: nat, c: Callback) returns (moves: seq<Move>, t: Race)
    requires Inv(r) && Owes(r, k, c)
    ensures Inv(t) && OnlyTelling(moves) && Executes(r, moves, t)
    ensures HeardBy(c, t.calls) == HeardBy(c, r.calls) + [k]
    ensures forall i: nat | i != k :: Owes(t, i, c) == Owes(r, i, c)
  {
    if r.tellings[k].Reading? {
      moves, t := TellOn(r, k, c);
    } else {
      var next := Step(r, Read(k));
      StepKeepsInv(r, Read(k));
      var rest;
      rest, t := TellOn(next, k, c);
      moves := [Read(k)] + rest;
      ExecutesFrom(r, Read(k), rest, t);
    }
  }

  lemma {:induction false} ExecutesConcat(r: Race, a: seq<Move>, m: Race, b: seq<Move>, t: Race)
    requires Executes(r, a, m) && Executes(m, b, t)
    ensures Executes(r, a + b, t)
    decreases |a|
  {
    if a == [] {
      assert a + b == b;
    } else {
      assert (a + b)[1..] == a[1..] + b;
      ExecutesConcat(Step(r, a[0]), a[1..], m, b, t);
    }
  }

  lemma Misordered(numbers: seq<nat>, j: nat, i: nat)
    requires j in numbers && i < j
    ensures !InOrder(numbers + [i])
  {
    var at :| 0 <= at < |numbers| && numbers[at] == j;
    assert (numbers + [i])[at] == j && (numbers + [i])[|numbers|] == i;
  }

  /** A later change was told already. */
  lemma LateCanMisorder(r: Race, c: Callback, i: nat, j: nat) returns (moves: seq<Move>, t: Race)
    requires Inv(r) && i < j && Owes(r, i, c) && j in HeardBy(c, r.calls)
    ensures OnlyTelling(moves) && Executes(r, moves, t) && !InOrder(HeardBy(c, t.calls))
  {
    Misordered(HeardBy(c, r.calls), j, i);
    moves, t := TellNext(r, i, c);
  }

  lemma OutOfTurnCanMisorder(r: Race, c: Callback)
    requires Inv(r) && OutOfTurn(r, c)
    ensures !CompletesInOrder(r, c)
  {
    var i: nat, j: nat :| i < j && Owes(r, i, c) && (Owes(r, j, c) || j in HeardBy(c, r.calls));
    if j in HeardBy(c, r.calls) {
      var moves, t := LateCanMisorder(r, c, i, j);
    } else {
      var first, m := TellNext(r, j, c);
      var second, t := LateCanMisorder(m, c, i, j);
      ExecutesConcat(r, first, m, second, t);
      assert OnlyTelling(first + second);
    }
  }

  /** Whatever order the goroutines are scheduled in to finish, `c` hears of the changes in the order
      in which they were made: exactly if it did so far, and no change is still to be told to it when
      a later one was told or is to be told. */
  lemma CompletesInOrderIffInTurn(r: Race, c: Callback)
    requires Inv(r)
    ensures CompletesInOrder(r, c) <==> InTurn(r, c)
  {
    if InTurn(r, c) {
      forall moves, t | OnlyTelling(moves) && Executes(r, moves, t) ensures InOrder(HeardBy(c, t.calls)) {
        TellingKeepsInTurn(r, moves, t, c);
      }
    } else if OutOfTurn(r, c) {
      OutOfTurnCanMisorder(r, c);
    } else {
      assert OnlyTelling([]) && Executes(r, [], r);
    }
  }

  /** In every state of the run, every way to finish is in order. */
  ghost predicate AlwaysInOrder(r: Race, moves: seq<Move>, c: Callback)
    decreases |moves|
  {
    && CompletesInOrder(r, c)
    && (moves != [] ==> Enabled(r, moves[0]) && AlwaysInOrder(Step(r, moves[0]), moves[1..], c))
  }

  /** Each swap of the run happens when nothing is owed to `c`. */
  ghost predicate SwapsInTurn(r: Race, moves: seq<Move>, c: Callback)
    decreases |moves|
  {
    moves != [] ==>
      && Enabled(r, moves[0]) && (moves[0].Swap? ==> NothingOwed(r, c))
      && SwapsInTurn(Step(r, moves[0]), moves[1..], c)
  }

  /** Over whole runs: a registered callback is safe from hearing of the changes out of order, at
      every point of the run, iff no swap happens between another swap and the last call it makes of
      that callback. */
  lemma {:induction false} AlwaysInOrderIffSwapsInTurn(r: Race, moves: seq<Move>, t: Race, c: Callback)
    requires Inv(r) && c in r.callbacks && CompletesInOrder(r, c) && Executes(r, moves, t)
    ensures AlwaysInOrder(r, moves, c) <==> SwapsInTurn(r, moves, c)
    decreases |moves|
  {
    if moves != [] {
      var next := Step(r, moves[0]);
      CompletesInOrderIffInTurn(r, c);
      StepKeepsInTurnIff(r, moves[0], c);
      StepKeepsInv(r, moves[0]);
      CompletesInOrderIffInTurn(next, c);
      if CompletesInOrder(next, c) {
        AlwaysInOrderIffSwapsInTurn(next, moves[1..], t, c);
      }
    }
  }

  // ---- When a callback's own trace chains ----

  function UpTo(from: nat, to: nat): seq<nat>
    requires from <= to
  {
    seq(to - from, i requires 0 <= i < to - from => from + i)
  }

  /** `c` has heard, after `h`, of every change since number `base`. */
  predicate UpToDate(r: Race, c: Callback, base: nat, h: seq<nat>) {
    base <= |r.changes| && HeardBy(c, r.calls) == h + UpTo(base, |r.changes|) && NothingOwed(r, c)
  }

  /** Of every change but the last one, which it will hear of once. */
  predicate OneBehind(r: Race, c: Callback, base: nat, h: seq<nat>) {
    var last := |r.changes| - 1;
    && base <= last < |r.tellings| && HeardBy(c, r.calls) == h + UpTo(base, last)
    && (forall k: nat | k < last :: !Owes(r, k, c))
    && match r.tellings[last]
       case Unread => true
       case Reading(snapshot, told) => told <= |snapshot| && Registrations(snapshot[told..], c) == 1
  }

  lemma {:induction false} RegistrationsFromFront(first: Callback, rest: seq<Callback>, c: Callback)
    ensures Registrations([first] + rest, c) == (if first == c then 1 else 0) + Registrations(rest, c)
    decreases |rest|
  {
    var all := [first] + rest;
    if rest == [] {
      assert all[..|all| - 1] == [];
    } else {
      assert all[..|all| - 1] == [first] + rest[..|rest| - 1];
      RegistrationsFromFront(first, rest[..|rest| - 1], c);
    }
  }

  lemma {:induction false} RegisteredIffIn(callbacks: seq<Callback>, c: Callback)
    ensures Registrations(callbacks, c) > 0 <==> c in callbacks
    decreases |callbacks|
  {
    if callbacks != [] {
      RegisteredIffIn(callbacks[..|callbacks| - 1], c);
      assert callbacks == callbacks[..|callbacks| - 1] + [callbacks[|callbacks| - 1]];
    }
  }

  lemma TellKeepsUpToDate(r: Race, k: nat, c: Callback, base: nat, h: seq<nat>)
    requires Inv(r) && Enabled(r, Tell(k)) && UpToDate(r, c, base, h)
    ensures UpToDate(Step(r, Tell(k)), c, base, h)
  {
    HeardOneMore(r, k, c);
    TellPays(r, k, k, c);
    forall i: nat ensures !Owes(Step(r, Tell(k)), i, c) {
      TellPays(r, k, i, c);
    }
  }

  lemma OneFewerAhead(snapshot: seq<Callback>, told: nat, c: Callback)
    requires told < |snapshot| && Registrations(snapshot[told..], c) == 1
    ensures if snapshot[told] == c then c !in snapshot[told + 1..] else Registrations(snapshot[told + 1..], c) == 1
  {
    assert snapshot[told..] == [snapshot[told]] + snapshot[told + 1..];
    RegistrationsFromFront(snapshot[told], snapshot[told + 1..], c);
    RegisteredIffIn(snapshot[told + 1..], c);
  }

  /** Telling the last change: `c` is called with it once. */
  lemma TellCatchesUp(r: Race, c: Callback, base: nat, h: seq<nat>)
    requires Inv(r) && OneBehind(r, c, base, h) && Enabled(r, Tell(|r.changes| - 1))
    ensures var t := Step(r, Tell(|r.changes| - 1)); UpToDate(t, c, base, h) || OneBehind(t, c, base, h)
  {
    var k: nat := |r.changes| - 1;
    HeardOneMore(r, k, c);
    OneFewerAhead(r.tellings[k].snapshot, r.tellings[k].told, c);
    forall i: nat | i < k ensures !Owes(Step(r, Tell(k)), i, c) {
      TellPays(r, k, i, c);
    }
    assert UpTo(base, k + 1) == UpTo(base, k) + [k];
  }

  /** Telling an earlier change, of which `c` has heard. */
  lemma TellStaysBehind(r: Race, k: nat, c: Callback, base: nat, h: seq<nat>)
    requires Inv(r) && Enabled(r, Tell(k)) && OneBehind(r, c, base, h) && k != |r.changes| - 1
    ensures OneBehind(Step(r, Tell(k)), c, base, h)
  {
    HeardOneMore(r, k, c);
    TellPays(r, k, k, c);
    forall i: nat | i < |r.changes| - 1 ensures !Owes(Step(r, Tell(k)), i, c) {
      TellPays(r, k, i, c);
    }
  }

  lemma TellKeepsPace(r: Race, k: nat, c: Callback, base: nat, h: seq<nat>)
    requires Inv(r) && Enabled(r, Tell(k)) && (UpToDate(r, c, base, h) || OneBehind(r, c, base, h))
    ensures UpToDate(Step(r, Tell(k)), c, base, h) || OneBehind(Step(r, Tell(k)), c, base, h)
  {
    if UpToDate(r, c, base, h) {
      TellKeepsUpToDate(r, k, c, base, h);
    } else if k == |r.changes| - 1 {
      TellCatchesUp(r, c, base, h);
    } else {
      TellStaysBehind(r, k, c, base, h);
    }
  }

  lemma OneBehindIsOwed(r: Race, c: Callback, base: nat, h: seq<nat>)
    requires OneBehind(r, c, base, h) && c in r.callbacks
    ensures Owes(r, |r.changes| - 1, c)
  {
    var last := r.tellings[|r.changes| - 1];
    if last.Reading? {
      RegisteredIffIn(last.snapshot[last.told..], c);
    }
  }

  lemma SwapKeepsPace(r: Race, to: ConnectionState, c: Callback, base: nat, h: seq<nat>)
    requires Inv(r) && Enabled(r, Swap(to)) && UpToDate(r, c, base, h)
    ensures OneBehind(Step(r, Swap(to)), c, base, h)
  {
    assert forall k: nat | k < |r.tellings| :: Owes(Step(r, Swap(to)), k, c) == Owes(r, k, c);
  }

  lemma ReadKeepsPace(r: Race, k: nat, c: Callback, base: nat, h: seq<nat>)
    requires Inv(r) && Enabled(r, Read(k)) && Registrations(r.callbacks, c) == 1
    requires UpToDate(r, c, base, h) || OneBehind(r, c, base, h)
    ensures UpToDate(Step(r, Read(k)), c, base, h) || OneBehind(Step(r, Read(k)), c, base, h)
  {
    assert forall i: nat :: Owes(Step(r, Read(k)), i, c) == Owes(r, i, c);
    assert r.callbacks[0..] == r.callbacks;
  }

  lemma StepKeepsPace(r: Race, move: Move, c: Callback, base: nat, h: seq<nat>)
    requires Inv(r) && Enabled(r, move) && Registrations(r.callbacks, c) == 1 && move != Move.Register(c)
    requires UpToDate(r, c, base, h) || OneBehind(r, c, base, h)
    requires move.Swap? ==> NothingOwed(r, c)
    ensures var t := Step(r, move);
            Registrations(t.callbacks, c) == 1 && (UpToDate(t, c, base, h) || OneBehind(t, c, base, h))
  {
    var t := Step(r, move);
    RegisteredIffIn(r.callbacks, c);
    match move {
      case Tell(k) => TellKeepsPace(r, k, c, base, h);
      case Swap(_) =>
        if OneBehind(r, c, base, h) {
          OneBehindIsOwed(r, c, base, h);
        }
        SwapKeepsPace(r, move.to, c, base, h);
      case Read(k) => ReadKeepsPace(r, k, c, base, h);
      case _ => assert forall i: nat :: Owes(t, i, c) == Owes(r, i, c);
    }
  }

  lemma {:induction false} RunKeepsPace(r: Race, moves: seq<Move>, t: Race, c: Callback, base: nat, h: seq<nat>)
    requires Inv(r) && Executes(r, moves, t) && Registrations(r.callbacks, c) == 1 && Move.Register(c) !in moves
    requires UpToDate(r, c, base, h) || OneBehind(r, c, base, h)
    requires SwapsInTurn(r, moves, c)
    ensures UpToDate(t, c, base, h) || OneBehind(t, c, base, h)
    ensures c in t.callbacks
    decreases |moves|
  {
    RegisteredIffIn(r.callbacks, c);
    if moves != [] {
      assert moves[0] in moves && forall later <- moves[1..] :: later in moves;
      StepKeepsPace(r, moves[0], c, base, h);
      StepKeepsInv(r, moves[0]);
      RunKeepsPace(Step(r, moves[0]), moves[1..], t, c, base, h);
    }
  }

  /** The changes `c` was called with, in order. */
  ghost function Trace(r: Race, c: Callback): seq<Change>
    requires Inv(r)
  {
    HeardAreMade(r, c, r.calls);
    var heard := HeardBy(c, r.calls);
    seq(|heard|, i requires 0 <= i < |heard| => assert heard[i] in heard; r.changes[heard[i]])
  }

  predicate Consecutive(changes: seq<Change>) {
    forall i :: 0 < i < |changes| ==> changes[i - 1].to == changes[i].from
  }

  lemma {:induction false} ChainedIsConsecutive(first: ConnectionState, changes: seq<Change>, last: ConnectionState)
    requires Chained(first, changes, last)
    ensures Consecutive(changes)
    decreases |changes|
  {
    if changes != [] {
      var n := |changes| - 1;
      ChainedIsConsecutive(first, changes[..n], changes[n].from);
      if n > 0 {
        assert changes[n - 1] == changes[..n][n - 1];
      }
    }
  }

  lemma TraceOfInterval(r: Race, c: Callback, base: nat, to: nat)
    requires Inv(r) && base <= to <= |r.changes| && HeardBy(c, r.calls) == UpTo(base, to)
    ensures Trace(r, c) == r.changes[base..to] && Consecutive(Trace(r, c))
  {
    ChainedIsConsecutive(Uninitialized, r.changes, r.state);
    var trace := Trace(r, c);
    assert |trace| == to - base;
    forall i | 0 <= i < to - base ensures trace[i] == r.changes[base + i] {
      assert HeardBy(c, r.calls)[i] == base + i;
    }
  }

  lemma TraceOfPace(r: Race, c: Callback, base: nat)
    requires Inv(r) && c in r.callbacks && (UpToDate(r, c, base, []) || OneBehind(r, c, base, []))
    ensures Consecutive(Trace(r, c))
    ensures var told := |r.changes| - (if NothingOwed(r, c) then 0 else 1);
            base <= told && Trace(r, c) == r.changes[base..told]
  {
    if UpToDate(r, c, base, []) {
      assert HeardBy(c, r.calls) == UpTo(base, |r.changes|);
      TraceOfInterval(r, c, base, |r.changes|);
    } else {
      assert HeardBy(c, r.calls) == UpTo(base, |r.changes| - 1);
      OneBehindIsOwed(r, c, base, []);
      TraceOfInterval(r, c, base, |r.changes| - 1);
    }
  }

  /** `c` has heard of every change since number `base`, each once and in order, and of no other, but
      for the last one if that is still being told. */
  predicate KeepsPace(r: Race, c: Callback, base: nat) {
    UpToDate(r, c, base, []) || OneBehind(r, c, base, [])
  }

  /** So it is from its registration on, if by then no change but the last one is without a copy of the
      registry; that one it hears of, too. */
  lemma RegistrationKeepsPace(r: Race, c: Callback)
    requires Inv(r) && c !in r.callbacks && HeardBy(c, r.calls) == [] && NothingOwed(r, c)
    requires forall k: nat | k + 1 < |r.tellings| :: r.tellings[k].Reading?
    ensures var t, n := Step(r, Move.Register(c)), |r.changes|;
            && Registrations(t.callbacks, c) == 1
            && KeepsPace(t, c, if n > 0 && r.tellings[n - 1].Unread? then n - 1 else n)
  {
    var t, n := Step(r, Move.Register(c)), |r.changes|;
    RegisteredIffIn(r.callbacks, c);
    assert t.callbacks[..|t.callbacks| - 1] == r.callbacks;
    assert forall k: nat | k < n && r.tellings[k].Reading? :: Owes(t, k, c) == Owes(r, k, c);
    assert UpTo(n, n) == [] && (n > 0 ==> UpTo(n - 1, n - 1) == []);
  }

  /** When all swaps of a run happen in turn, a callback that keeps pace at its start is told of all the
      changes made since, each once and in order, but for the last one while that is being told; so what
      it is told chains. */
  lemma TraceChains(r: Race, moves: seq<Move>, t: Race, c: Callback, base: nat)
    requires Inv(r) && Executes(r, moves, t) && SwapsInTurn(r, moves, c)
    requires Registrations(r.callbacks, c) == 1 && Move.Register(c) !in moves && KeepsPace(r, c, base)
    ensures Inv(t) && Consecutive(Trace(t, c))
    ensures var told := |t.changes| - (if NothingOwed(t, c) then 0 else 1);
            base <= told && Trace(t, c) == t.changes[base..told]
  {
    ExecutionKeepsInv(r, moves, t);
    RunKeepsPace(r, moves, t, c, base, []);
    TraceOfPace(t, c, base);
  }

  /** `c` was told of the changes since number `base`, up to some point, each once and in order. */
  ghost predicate HearsInSequence(r: Race, c: Callback, base: nat) {
    exists to: nat :: base <= to <= |r.changes| && HeardBy(c, r.calls) == UpTo(base, to)
  }

  /** However the goroutines finish. */
  ghost predicate CompletesInSequence(r: Race, c: Callback, base: nat) {
    forall moves, t :: OnlyTelling(moves) && Executes(r, moves, t) ==> HearsInSequence(t, c, base)
  }

  ghost predicate AlwaysInSequence(r: Race, moves: seq<Move>, c: Callback, base: nat)
    decreases |moves|
  {
    && CompletesInSequence(r, c, base)
    && (moves != [] ==> Enabled(r, moves[0]) && AlwaysInSequence(Step(r, moves[0]), moves[1..], c, base))
  }

  lemma SequenceIsInOrder(r: Race, c: Callback, base: nat)
    requires CompletesInSequence(r, c, base)
    ensures CompletesInOrder(r, c)
  {
    forall moves, t | OnlyTelling(moves) && Executes(r, moves, t) ensures InOrder(HeardBy(c, t.calls)) {
      assert HearsInSequence(t, c, base);
    }
  }

  lemma {:induction false} AlwaysInSequenceIsInOrder(r: Race, moves: seq<Move>, c: Callback, base: nat)
    requires AlwaysInSequence(r, moves, c, base)
    ensures AlwaysInOrder(r, moves, c)
    decreases |moves|
  {
    SequenceIsInOrder(r, c, base);
    if moves != [] {
      AlwaysInSequenceIsInOrder(Step(r, moves[0]), moves[1..], c, base);
    }
  }

  lemma {:induction false} TellingIsInTurn(r: Race, moves: seq<Move>, t: Race, c: Callback)
    requires OnlyTelling(moves) && Executes(r, moves, t)
    ensures SwapsInTurn(r, moves, c)
    decreases |moves|
  {
    if moves != [] {
      assert moves[0] in moves && forall later <- moves[1..] :: later in moves;
      TellingIsInTurn(Step(r, moves[0]), moves[1..], t, c);
    }
  }

  lemma PaceCompletesInSequence(r: Race, c: Callback, base: nat)
    requires Inv(r) && Registrations(r.callbacks, c) == 1 && KeepsPace(r, c, base)
    ensures CompletesInSequence(r, c, base)
  {
    forall moves, t | OnlyTelling(moves) && Executes(r, moves, t) ensures HearsInSequence(t, c, base) {
      TellingIsInTurn(r, moves, t, c);
      RunKeepsPace(r, moves, t, c, base, []);
      assert HeardBy(c, t.calls) == UpTo(base, |t.changes|) || HeardBy(c, t.calls) == UpTo(base, |t.changes| - 1);
    }
  }

  lemma {:induction false} InTurnIsInSequence(r: Race, moves: seq<Move>, t: Race, c: Callback, base: nat)
    requires Inv(r) && Executes(r, moves, t) && SwapsInTurn(r, moves, c)
    requires Registrations(r.callbacks, c) == 1 && Move.Register(c) !in moves && KeepsPace(r, c, base)
    ensures AlwaysInSequence(r, moves, c, base)
    decreases |moves|
  {
    PaceCompletesInSequence(r, c, base);
    if moves != [] {
      assert moves[0] in moves && forall later <- moves[1..] :: later in moves;
      StepKeepsPace(r, moves[0], c, base, []);
      StepKeepsInv(r, moves[0]);
      InTurnIsInSequence(Step(r, moves[0]), moves[1..], t, c, base);
    }
  }

  /** The exact condition: over a whole run, a callback that keeps pace at its start is safe from missing
      a change, hearing of one twice or out of order, iff no swap happens while an earlier change is owed
      to it. (Two states alone need not tell: a change from SessionReady to SessionReady chains with
      itself in any order.) */
  lemma AlwaysInSequenceIffSwapsInTurn(r: Race, moves: seq<Move>, t: Race, c: Callback, base: nat)
    requires Inv(r) && Executes(r, moves, t)
    requires Registrations(r.callbacks, c) == 1 && Move.Register(c) !in moves && KeepsPace(r, c, base)
    ensures AlwaysInSequence(r, moves, c, base) <==> SwapsInTurn(r, moves, c)
  {
    if SwapsInTurn(r, moves, c) {
      InTurnIsInSequence(r, moves, t, c, base);
    } else if AlwaysInSequence(r, moves, c, base) {
      AlwaysInSequenceIsInOrder(r, moves, c, base);
      RegisteredIffIn(r.callbacks, c);
      AlwaysInOrderIffSwapsInTurn(r, moves, t, c);
    }
  }

  /** What is heard in sequence chains. */
  lemma SequenceChains(r: Race, c: Callback, base: nat)
    requires Inv(r) && HearsInSequence(r, c, base)
    ensures Consecutive(Trace(r, c))
    ensures exists to: nat :: base <= to <= |r.changes| && Trace(r, c) == r.changes[base..to]
  {
    var to: nat :| base <= to <= |r.changes| && HeardBy(c, r.calls) == UpTo(base, to);
    TraceOfInterval(r, c, base, to);
  }

  // ---- When the changes stay in the table ----

  predicate OnlySwaps(moves: seq<Move>) {
    forall i :: 0 <= i < |moves| ==> moves[i].Swap?
  }

  /** No order of swapping the pending requests makes a change that is not in the table. */
  ghost predicate SwapsStayInTable(r: Race) {
    forall moves, t :: OnlySwaps(moves) && Executes(r, moves, t) ==> InTable(t.changes)
  }

  /** Nothing that may follow makes such a change. */
  ghost predicate StaysInTable(r: Race) {
    forall moves, t :: Executes(r, moves, t) ==> InTable(t.changes)
  }

  /** Every pending request is for SessionReady. */
  predicate OnlyReadyPending(r: Race) {
    forall to <- r.pending :: to == SessionReady
  }

  predicate AllAllowed(r: Race) {
    forall to <- r.pending :: to in Successors(r.state)
  }

  lemma {:induction false} ReadySwapsStayInTable(r: Race, moves: seq<Move>, t: Race)
    requires InTable(r.changes) && OnlyReadyPending(r) && AllAllowed(r) && OnlySwaps(moves) && Executes(r, moves, t)
    ensures InTable(t.changes)
    decreases |moves|
  {
    if moves != [] {
      ReadySwapsStayInTable(Step(r, moves[0]), moves[1..], t);
    }
  }

  lemma NothingToSwap(r: Race, moves: seq<Move>, t: Race)
    requires r.pending == multiset{} && OnlySwaps(moves) && Executes(r, moves, t)
    ensures t == r
  {
  }

  lemma OneSwapStaysInTable(r: Race, moves: seq<Move>, t: Race)
    requires InTable(r.changes) && |r.pending| <= 1 && AllAllowed(r) && OnlySwaps(moves) && Executes(r, moves, t)
    ensures InTable(t.changes)
  {
    if moves != [] {
      var move := moves[0];
      assert r.pending == (r.pending - multiset{move.to}) + multiset{move.to};
      NothingToSwap(Step(r, move), moves[1..], t);
    }
  }

  lemma Forbidden(r: Race, to: ConnectionState) returns (t: Race)
    requires to in r.pending && to !in Successors(r.state)
    ensures Executes(r, [Swap(to)], t) && !InTable(t.changes) && t == Step(r, Swap(to))
  {
    t := Step(r, Swap(to));
    ExecutesFrom(r, Swap(to), [], t);
    assert t.changes[|r.changes|] == Change(r.state, to);
  }

  lemma SecondIsForbidden(from: ConnectionState, first: ConnectionState, second: ConnectionState)
    requires first in Successors(from) && second in Successors(from) && second != SessionReady
    ensures second !in Successors(first)
  {
  }

  /** Swapping two requests that passed the check in one state: the second makes a change that is
      not in the table unless it is for SessionReady. */
  lemma SecondForbidden(r: Race, first: ConnectionState, second: ConnectionState) returns (t: Race)
    requires first in Successors(r.state) && second in Successors(r.state) && second != SessionReady
    requires first in r.pending && second in r.pending - multiset{first}
    ensures Executes(r, [Swap(first), Swap(second)], t) && !InTable(t.changes)
    ensures t == Step(Step(r, Swap(first)), Swap(second))
  {
    SecondIsForbidden(r.state, first, second);
    var next := Step(r, Swap(first));
    assert next.state == first && next.pending == r.pending - multiset{first};
    t := Forbidden(next, second);
    ExecutesFrom(r, Swap(first), [Swap(second)], t);
    assert [Swap(first)] + [Swap(second)] == [Swap(first), Swap(second)];
  }

  lemma TwoPending(pending: multiset<ConnectionState>) returns (first: ConnectionState, second: ConnectionState)
    requires |pending| > 1 && exists to <- pending :: to != SessionReady
    ensures first in pending && second in pending - multiset{first} && second != SessionReady
  {
    second :| second in pending && second != SessionReady;
    var others := pending - multiset{second};
    assert |others| > 0;
    first :| first in others;
  }

  /** Staying in the table is not guaranteed under races. Exactly: whatever the order in which the
      pending requests are swapped, the changes stay in the table iff the current state allows each
      of them, and there is at most one or all are for SessionReady. */
  lemma SwapsStayInTableIff(r: Race)
    requires InTable(r.changes)
    ensures SwapsStayInTable(r) <==> AllAllowed(r) && (|r.pending| <= 1 || OnlyReadyPending(r))
  {
    if to :| to in r.pending && to !in Successors(r.state) {
      var t := Forbidden(r, to);
      assert OnlySwaps([Swap(to)]);
    } else if |r.pending| <= 1 || OnlyReadyPending(r) {
      forall moves, t | OnlySwaps(moves) && Executes(r, moves, t) ensures InTable(t.changes) {
        if OnlyReadyPending(r) {
          ReadySwapsStayInTable(r, moves, t);
        } else {
          OneSwapStaysInTable(r, moves, t);
        }
      }
    } else {
      var first, second := TwoPending(r.pending);
      var t := SecondForbidden(r, first, second);
      assert OnlySwaps([Swap(first), Swap(second)]);
    }
  }

  /** Where only SessionReady can follow. */
  predicate Settled(r: Race) {
    (r.state == Authenticated || r.state == SessionReady) && OnlyReadyPending(r)
  }

  lemma {:induction false} SettledStaysInTable(r: Race, moves: seq<Move>, t: Race)
    requires InTable(r.changes) && Settled(r) && Executes(r, moves, t)
    ensures InTable(t.changes)
    decreases |moves|
  {
    if moves != [] {
      SettledStaysInTable(Step(r, moves[0]), moves[1..], t);
    }
  }

  /** Two goroutines request the same state, both pass the check, and both swap. */
  function Twice(to: ConnectionState): seq<Move> {
    [Check(to), Check(to), Swap(to), Swap(to)]
  }

  lemma TwiceLeavesTable(r: Race, to: ConnectionState) returns (t: Race)
    requires to in Successors(r.state) && to != SessionReady
    ensures Executes(r, Twice(to), t) && !InTable(t.changes)
  {
    var one := Step(r, Check(to));
    var two := Step(one, Check(to));
    t := SecondForbidden(two, to, to);
    ExecutesFrom(one, Check(to), [Swap(to), Swap(to)], t);
    ExecutesFrom(r, Check(to), [Check(to)] + [Swap(to), Swap(to)], t);
    assert [Check(to)] + ([Check(to)] + [Swap(to), Swap(to)]) == Twice(to);
  }

  /** With further requests and registrations at any time, the changes stay in the table iff the
      state is past Initialized and every pending request is for SessionReady. */
  lemma StaysInTableIffSettled(r: Race)
    requires InTable(r.changes)
    ensures StaysInTable(r) <==> Settled(r)
  {
    if Settled(r) {
      forall moves, t | Executes(r, moves, t) ensures InTable(t.changes) {
        SettledStaysInTable(r, moves, t);
      }
    } else if r.state == Uninitialized || r.state == Initialized {
      var t := TwiceLeavesTable(r, if r.state == Uninitialized then Initialized else Authenticated);
    } else {
      var to :| to in r.pending && to != SessionReady;
      var t := Forbidden(r, to);
    }
  }

  ghost predicate Reachable(r: Race) {
    exists moves :: Executes(START, moves, r)
  }

  lemma StaysReachable(r: Race, move: Move) returns (t: Race)
    requires Reachable(r) && Enabled(r, move)
    ensures t == Step(r, move) && Reachable(t)
  {
    t := Step(r, move);
    var moves :| Executes(START, moves, r);
    ExecutesFrom(r, move, [], t);
    ExecutesConcat(START, moves, r, [move], t);
  }

  lemma SwapsTo(r: Race, to: ConnectionState) returns (t: Race)
    requires Reachable(r) && to in Successors(r.state)
    ensures Reachable(t) && t.pending == r.pending && t.state == to && t.callbacks == r.callbacks && t.calls == r.calls
    ensures t.changes == r.changes + [Change(r.state, to)] && t.tellings == r.tellings + [Unread]
  {
    t := StaysReachable(r, Check(to));
    t := StaysReachable(t, Swap(to));
  }

  /** Leaving the table takes no more than a fresh connection and two goroutines that initialize it. */
  lemma SomeRaceLeavesTable() returns (t: Race)
    ensures Executes(START, Twice(Initialized), t) && t.pending == multiset{} && !InTable(t.changes)
  {
    t := TwiceLeavesTable(START, Initialized);
  }

  /** Or a single stale request, which passed its check before another one overtook it. */
  lemma SomeStaleRequestLeavesTable()
    ensures exists t :: Reachable(t) && |t.changes| == 3
                     && t.changes[1] == Change(Initialized, SessionReady)
                     && t.changes[2] == Change(SessionReady, Authenticated)
  {
    assert Executes(START, [], START);
    var t := SwapsTo(START, Initialized);
    t := StaysReachable(t, Check(Authenticated));
    t := SwapsTo(t, SessionReady);
    t := StaysReachable(t, Swap(Authenticated));
  }

  lemma ReadAndTell(r: Race, k: nat, c: Callback) returns (t: Race)
    requires Reachable(r) && r.callbacks == [c] && Enabled(r, Read(k))
    ensures Reachable(t) && t.calls == r.calls + [Told(c, k)]
    ensures t.tellings == r.tellings[k := Reading([c], 1)]
    ensures t.changes == r.changes && t.callbacks == r.callbacks
  {
    t := StaysReachable(r, Read(k));
    t := StaysReachable(t, Tell(k));
  }

  lemma TwoChanges(c: Callback) returns (t: Race)
    ensures Reachable(t) && t.callbacks == [c] && t.tellings == [Unread, Unread] && t.calls == []
    ensures t.changes == [Change(Uninitialized, Initialized), Change(Initialized, Authenticated)]
  {
    assert Executes(START, [], START);
    t := StaysReachable(START, Move.Register(c));
    t := SwapsTo(t, Initialized);
    t := SwapsTo(t, Authenticated);
  }

  lemma ToldBackwards(t: Race, c: Callback)
    requires Reachable(t) && t.calls == [Told(c, 1), Told(c, 0)]
    requires t.changes == [Change(Uninitialized, Initialized), Change(Initialized, Authenticated)]
    ensures Inv(t) && HeardBy(c, t.calls) == [1, 0] && !Consecutive(Trace(t, c))
  {
    var moves :| Executes(START, moves, t);
    ExecutionKeepsInv(START, moves, t);
    assert t.calls[..1] == [Told(c, 1)];
    assert HeardBy(c, [Told(c, 1)]) == [1];
    assert Trace(t, c)[0].to == Authenticated && Trace(t, c)[1].from == Uninitialized;
  }

  /** What a callback is told need not chain, although it is told of every change and each change is
      in the table: the goroutine of the second change may get ahead of that of the first. */
  lemma SomeTraceDoesNotChain(c: Callback)
    ensures exists t :: Reachable(t) && Inv(t) && InTable(t.changes) && NothingOwed(t, c)
                     && |t.changes| == 2 && HeardBy(c, t.calls) == [1, 0] && !Consecutive(Trace(t, c))
  {
    var t := TwoChanges(c);
    t := ReadAndTell(t, 1, c);
    t := ReadAndTell(t, 0, c);
    ToldBackwards(t, c);
  }
}
