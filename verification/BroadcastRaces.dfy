/**
  `Subscribe`, `Broadcast` and `Close` of `acp/stream.go` split at their atomic actions: the load or
  compare-and-swap of the closed flag, each operation of the receiver list, each send, each close.
  Messages and buffers play no part here: a send to a full open channel is skipped, and a send to a
  closed channel panics whether or not it is full.
 */
module BroadcastRaces {
  import opened Sequences
  import opened Wrappers

  type ThreadId = nat
  type ChannelId = nat

  datatype Pc =
    | SubscribeChecked
    | SubscribeMade(channel: ChannelId)
    | BroadcastChecked
    | Sending(remaining: seq<ChannelId>)

  /** The one `Close` whose compare-and-swap succeeds. */
  datatype Closer = NotClosing | FlagSet | DoneClosed | ClosingChannels(remaining: seq<ChannelId>) | Finished

  /** `closings[ch]` counts how often channel `ch` was closed. */
  datatype State = State(
    closings: seq<nat>,
    receivers: seq<ChannelId>,
    threads: map<ThreadId, Pc>,
    closer: Closer,
    doneClosings: nat,
    returned: set<ChannelId>,
    panicked: bool)

  const INITIAL := State([], [], map[], NotClosing, 0, {}, false)

  datatype Action =
    | Subscribe(t: ThreadId)
    | MakeChannel(t: ThreadId)
    | AppendChannel(t: ThreadId)
    | Broadcast(t: ThreadId)
    | Snapshot(t: ThreadId)
    | Send(t: ThreadId)
    | EndBroadcast(t: ThreadId)
    | Close
    | CloseDone
    | CloseSnapshot
    | CloseNext
    | ClearReceivers

  function At(s: State, t: ThreadId): Option<Pc> {
    if t in s.threads then Some(s.threads[t]) else None
  }

  predicate Enabled(s: State, a: Action) {
    match a
    case Subscribe(t) => t !in s.threads
    case MakeChannel(t) => At(s, t) == Some(SubscribeChecked)
    case AppendChannel(t) => t in s.threads && s.threads[t].SubscribeMade?
    case Broadcast(t) => t !in s.threads
    case Snapshot(t) => At(s, t) == Some(BroadcastChecked)
    case Send(t) =>
      t in s.threads && s.threads[t].Sending? && s.threads[t].remaining != []
        && s.threads[t].remaining[0] < |s.closings|
    case EndBroadcast(t) => At(s, t) == Some(Sending([]))
    case Close => true
    case CloseDone => s.closer.FlagSet?
    case CloseSnapshot => s.closer.DoneClosed?
    case CloseNext => s.closer.ClosingChannels? && s.closer.remaining != [] && s.closer.remaining[0] < |s.closings|
    case ClearReceivers => s.closer == ClosingChannels([])
  }

  function Step(s: State, a: Action): State
    requires Enabled(s, a)
  {
    match a
    case Subscribe(t) =>
      if s.closer.NotClosing? then s.(threads := s.threads[t := SubscribeChecked])
      else s.(closings := s.closings + [1], returned := s.returned + {|s.closings|})
    case MakeChannel(t) =>
      s.(closings := s.closings + [0], threads := s.threads[t := SubscribeMade(|s.closings|)])
    case AppendChannel(t) =>
      var ch := s.threads[t].channel;
      s.(receivers := s.receivers + [ch], returned := s.returned + {ch}, threads := s.threads - {t})
    case Broadcast(t) =>
      if s.closer.NotClosing? then s.(threads := s.threads[t := BroadcastChecked]) else s
    case Snapshot(t) => s.(threads := s.threads[t := Sending(s.receivers)])
    case Send(t) =>
      var ch := s.threads[t].remaining[0];
      s.(threads := s.threads[t := Sending(s.threads[t].remaining[1..])], panicked := s.panicked || s.closings[ch] > 0)
    case EndBroadcast(t) => s.(threads := s.threads - {t})
    case Close => if s.closer.NotClosing? then s.(closer := FlagSet) else s
    case CloseDone => s.(closer := DoneClosed, doneClosings := s.doneClosings + 1)
    case CloseSnapshot => s.(closer := ClosingChannels(s.receivers))
    case CloseNext =>
      var ch := s.closer.remaining[0];
      s.(closings := s.closings[ch := s.closings[ch] + 1], closer := ClosingChannels(s.closer.remaining[1..]))
    case ClearReceivers => s.(closer := Finished, receivers := [])
  }

  ghost predicate Executes(s: State, actions: seq<Action>, t: State)
    decreases |actions|
  {
    if actions == [] then s == t
    else Enabled(s, actions[0]) && Executes(Step(s, actions[0]), actions[1..], t)
  }

  ghost predicate Reachable(s: State) {
    exists actions :: Executes(INITIAL, actions, s)
  }

  lemma {:induction false} ExecutesConcat(s: State, a: seq<Action>, m: State, b: seq<Action>, t: State)
    requires Executes(s, a, m) && Executes(m, b, t)
    ensures Executes(s, a + b, t)
    decreases |a|
  {
    if a == [] {
      assert a + b == b;
    } else {
      assert (a + b)[1..] == a[1..] + b;
      ExecutesConcat(Step(s, a[0]), a[1..], m, b, t);
    }
  }

  lemma OneStep(s: State, a: Action)
    requires Enabled(s, a)
    ensures Executes(s, [a], Step(s, a))
  {
    assert [a][1..] == [];
  }

  lemma StaysReachable(s: State, a: Action)
    requires Reachable(s) && Enabled(s, a)
    ensures Reachable(Step(s, a))
  {
    var actions :| Executes(INITIAL, actions, s);
    OneStep(s, a);
    ExecutesConcat(INITIAL, actions, s, [a], Step(s, a));
  }

  // ---- The invariant ----

  /** Channels that are still open for certain. */
  predicate AllOpen(s: State, ids: seq<ChannelId>) {
    forall ch <- ids :: ch < |s.closings| && s.closings[ch] == 0
  }

  predicate ListInv(s: State) {
    && Distinct(s.receivers)
    && (forall ch <- s.receivers :: ch < |s.closings|)
    && (s.closer.NotClosing? || s.closer.FlagSet? || s.closer.DoneClosed? ==> AllOpen(s, s.receivers))
    && (s.closer.ClosingChannels? ==>
          && Distinct(s.closer.remaining) && AllOpen(s, s.closer.remaining)
          && forall ch <- s.closer.remaining :: ch in s.receivers)
    && (s.closer.Finished? ==> AllOpen(s, s.receivers))
  }

  /** A channel made by a `Subscribe` that has not stored it yet is known to nobody else. */
  predicate MadeInv(s: State) {
    && (forall t <- s.threads | s.threads[t].SubscribeMade? ::
          AllOpen(s, [s.threads[t].channel]) && s.threads[t].channel !in s.receivers)
    && (forall t, u | t in s.threads && u in s.threads && t != u && s.threads[t].SubscribeMade?
        && s.threads[u].SubscribeMade? ::
          s.threads[t].channel != s.threads[u].channel)
  }

  predicate SendingInv(s: State) {
    forall t <- s.threads | s.threads[t].Sending? :: forall ch <- s.threads[t].remaining ::
      ch < |s.closings| && (!s.closer.Finished? ==> ch in s.receivers)
  }

  predicate Inv(s: State) {
    && (forall ch :: 0 <= ch < |s.closings| ==> s.closings[ch] <= 1)
    && ListInv(s)
    && MadeInv(s)
    && SendingInv(s)
    && s.doneClosings == (if s.closer.NotClosing? || s.closer.FlagSet? then 0 else 1)
    && (forall ch <- s.returned :: ch < |s.closings|)
  }

  lemma StepKeepsListInv(s: State, a: Action)
    requires Inv(s) && Enabled(s, a)
    ensures ListInv(Step(s, a)) && forall ch :: 0 <= ch < |Step(s, a).closings| ==> Step(s, a).closings[ch] <= 1
  {
    match a {
      case AppendChannel(t) => assert s.threads[t].channel in [s.threads[t].channel];
      case CloseNext => assert s.closer.remaining[0] in s.closer.remaining;
      case _ =>
    }
  }

  lemma MadeIsUnknown(s: State, t: ThreadId)
    requires MadeInv(s) && t in s.threads && s.threads[t].SubscribeMade?
    ensures var ch := s.threads[t].channel; ch < |s.closings| && s.closings[ch] == 0 && ch !in s.receivers
  {
    assert s.threads[t].channel in [s.threads[t].channel];
  }

  lemma StepKeepsMadeUnknown(s: State, a: Action, u: ThreadId)
    requires Inv(s) && Enabled(s, a)
    requires u in Step(s, a).threads && Step(s, a).threads[u].SubscribeMade?
    ensures var t := Step(s, a); AllOpen(t, [t.threads[u].channel]) && t.threads[u].channel !in t.receivers
  {
    if u in s.threads && s.threads[u].SubscribeMade? {
      MadeIsUnknown(s, u);
      if a.CloseNext? {
        assert s.closer.remaining[0] in s.closer.remaining;
      }
    }
  }

  lemma StepKeepsMadeInv(s: State, a: Action)
    requires Inv(s) && Enabled(s, a)
    ensures MadeInv(Step(s, a))
  {
    var t := Step(s, a);
    forall u | u in t.threads && t.threads[u].SubscribeMade?
      ensures AllOpen(t, [t.threads[u].channel]) && t.threads[u].channel !in t.receivers
    {
      StepKeepsMadeUnknown(s, a, u);
    }
    forall u, v | u in t.threads && v in t.threads && u != v && t.threads[u].SubscribeMade?
      && t.threads[v].SubscribeMade?
      ensures t.threads[u].channel != t.threads[v].channel
    {
      if u in s.threads && s.threads[u].SubscribeMade? { MadeIsUnknown(s, u); }
      if v in s.threads && s.threads[v].SubscribeMade? { MadeIsUnknown(s, v); }
    }
  }

  lemma StepKeepsSendingInv(s: State, a: Action)
    requires Inv(s) && Enabled(s, a)
    ensures SendingInv(Step(s, a))
  {
    if a.Send? {
      assert forall ch <- s.threads[a.t].remaining[1..] :: ch in s.threads[a.t].remaining;
    }
  }

  lemma StepKeepsInv(s: State, a: Action)
    requires Inv(s) && Enabled(s, a)
    ensures Inv(Step(s, a))
  {
    StepKeepsListInv(s, a);
    StepKeepsMadeInv(s, a);
    StepKeepsSendingInv(s, a);
    if a.AppendChannel? {
      MadeIsUnknown(s, a.t);
    }
  }

  lemma {:induction false} ExecutionKeepsInv(s: State, actions: seq<Action>, t: State)
    requires Inv(s) && Executes(s, actions, t)
    ensures Inv(t)
    decreases |actions|
  {
    if actions != [] {
      StepKeepsInv(s, actions[0]);
      ExecutionKeepsInv(Step(s, actions[0]), actions[1..], t);
    }
  }

  lemma ReachableInv(s: State)
    requires Reachable(s)
    ensures Inv(s)
  {
    var actions :| Executes(INITIAL, actions, s);
    ExecutionKeepsInv(INITIAL, actions, s);
  }

  // ---- Closing ----

  /** However the three operations interleave, every channel, and `done`, is closed at most once; and
      `done`, on which every receiver waits beside its own channel, is closed once a `Close` is past
      that, whether or not the channel will ever be. */
  lemma ClosedOnceAndWoken(s: State, ch: ChannelId)
    requires Reachable(s)
    ensures ch < |s.closings| ==> s.closings[ch] <= 1
    ensures s.doneClosings == if s.closer.NotClosing? || s.closer.FlagSet? then 0 else 1
    ensures ch in s.returned ==> ch < |s.closings|
  {
    ReachableInv(s);
  }

  /** A subscription past its check, with its channel made. */
  const SUBSCRIBED := State([0], [], map[0 := SubscribeMade(0)], NotClosing, 0, {}, false)

  lemma SubscribedIsReachable()
    ensures Reachable(SUBSCRIBED)
  {
    var checked := State([], [], map[0 := SubscribeChecked], NotClosing, 0, {}, false);
    assert Executes(INITIAL, [], INITIAL);
    StaysReachable(INITIAL, Subscribe(0));
    assert Step(INITIAL, Subscribe(0)) == checked;
    StaysReachable(checked, MakeChannel(0));
    assert Step(checked, MakeChannel(0)) == SUBSCRIBED;
  }

  lemma CloserOvertakesSubscriber()
    ensures Reachable(SUBSCRIBED.(closer := ClosingChannels([]), doneClosings := 1))
  {
    SubscribedIsReachable();
    StaysReachable(SUBSCRIBED, Close);
    StaysReachable(SUBSCRIBED.(closer := FlagSet), CloseDone);
    StaysReachable(SUBSCRIBED.(closer := DoneClosed, doneClosings := 1), CloseSnapshot);
  }

  /** A subscription that raced with `Close` may get a channel that nobody ever closes: its receiver
      is woken by `done` alone. */
  lemma SomeReceiverChannelIsNeverClosed()
    ensures exists s :: Reachable(s) && s.closer.Finished? && s.returned == {0} && s.closings == [0]
                     && s.doneClosings == 1
  {
    CloserOvertakesSubscriber();
    var s := SUBSCRIBED.(closer := ClosingChannels([]), doneClosings := 1);
    StaysReachable(s, AppendChannel(0));
    StaysReachable(Step(s, AppendChannel(0)), ClearReceivers);
  }

  /** A `Subscribe` that finds the stream closed returns at once, with a new channel, closed already. */
  lemma LateSubscriberGetsClosedChannel(s: State, t: ThreadId)
    requires Reachable(s) && !s.closer.NotClosing? && Enabled(s, Subscribe(t))
    ensures var next := Step(s, Subscribe(t));
            && next.closings == s.closings + [1] && next.returned == s.returned + {|s.closings|}
            && |s.closings| !in s.returned && next.threads == s.threads && next.receivers == s.receivers
  {
    ReachableInv(s);
  }

  /** A broadcast never waits for anybody: with a snapshot taken, its own steps alone take it through
      one send for each channel and to its end. */
  lemma {:induction false} BroadcastNeverBlocks(s: State, t: ThreadId) returns (actions: seq<Action>, end: State)
    requires Inv(s) && t in s.threads && s.threads[t].Sending?
    ensures Executes(s, actions, end) && end.threads == s.threads - {t}
    ensures |actions| == |s.threads[t].remaining| + 1
    ensures forall i :: 0 <= i < |actions| - 1 ==> actions[i] == Send(t)
    ensures end.closings == s.closings && end.receivers == s.receivers
    decreases |s.threads[t].remaining|
  {
    var channels := s.threads[t].remaining;
    if channels == [] {
      OneStep(s, EndBroadcast(t));
      actions, end := [EndBroadcast(t)], Step(s, EndBroadcast(t));
    } else {
      assert channels[0] in channels;
      var rest;
      StepKeepsInv(s, Send(t));
      rest, end := BroadcastNeverBlocks(Step(s, Send(t)), t);
      actions := [Send(t)] + rest;
      assert actions[1..] == rest;
    }
  }

  // ---- Sends that meet a closed channel ----

  predicate Broadcasting(s: State) {
    exists t :: t in s.threads && (s.threads[t].BroadcastChecked? || s.threads[t].Sending?)
  }

  /** A `Close` that starts while no `Broadcast` is past its check never makes one panic, whatever
      starts afterwards. */
  lemma {:induction false} CloseWithoutBroadcastsIsSafe(s: State, actions: seq<Action>, t: State)
    requires !s.closer.NotClosing? && !Broadcasting(s) && !s.panicked && Executes(s, actions, t)
    ensures !t.panicked && !Broadcasting(t)
    decreases |actions|
  {
    if actions != [] {
      var next := Step(s, actions[0]);
      assert !Broadcasting(next) by {
        forall u <- next.threads ensures !next.threads[u].BroadcastChecked? && !next.threads[u].Sending? {
        }
      }
      CloseWithoutBroadcastsIsSafe(next, actions[1..], t);
    }
  }

  /** `Close` has not taken its snapshot of the receivers. */
  predicate BeforeSnapshot(s: State) {
    s.closer.NotClosing? || s.closer.FlagSet? || s.closer.DoneClosed?
  }

  /** The channel is closed, or will be by a `Close` that starts or goes on now. */
  predicate Doomed(s: State, ch: ChannelId) {
    || (ch < |s.closings| && s.closings[ch] > 0)
    || (BeforeSnapshot(s) && ch in s.receivers)
    || (s.closer.ClosingChannels? && ch in s.closer.remaining)
  }

  predicate AnyDoomed(s: State, channels: seq<ChannelId>) {
    exists ch <- channels :: Doomed(s, ch)
  }

  predicate Subscribing(s: State) {
    exists u :: u in s.threads && (s.threads[u].SubscribeChecked? || s.threads[u].SubscribeMade?)
  }

  predicate EndangeredThread(s: State, pc: Pc) {
    || (pc.Sending? && AnyDoomed(s, pc.remaining))
    || (pc.BroadcastChecked? && (AnyDoomed(s, s.receivers) || (BeforeSnapshot(s) && Subscribing(s))))
  }

  /** A broadcast past its check has, or may yet pick up, a doomed channel to send to. */
  ghost predicate Endangered(s: State) {
    exists t :: t in s.threads && EndangeredThread(s, s.threads[t])
  }

  /** Continuations that start no `Subscribe` and no `Broadcast`. */
  predicate NothingNew(actions: seq<Action>) {
    forall a <- actions :: !a.Subscribe? && !a.Broadcast?
  }

  ghost predicate CanPanic(s: State) {
    exists actions, t :: NothingNew(actions) && Executes(s, actions, t) && t.panicked
  }

  /** What `Close` does to a channel does not change whether it is doomed; only being stored before
      the snapshot does. */
  lemma StepDooms(s: State, a: Action, ch: ChannelId)
    requires Inv(s) && Enabled(s, a) && !a.Subscribe? && !a.ClearReceivers? && ch < |s.closings|
    ensures Doomed(Step(s, a), ch) <==>
            Doomed(s, ch) || (a.AppendChannel? && BeforeSnapshot(s) && ch == s.threads[a.t].channel)
  {
    if a.CloseNext? {
      assert s.closer.remaining == [s.closer.remaining[0]] + s.closer.remaining[1..];
    }
  }

  lemma ClearDoomsNothing(s: State, ch: ChannelId)
    requires Inv(s) && Enabled(s, ClearReceivers)
    ensures Doomed(Step(s, ClearReceivers), ch) <==> Doomed(s, ch)
  {
  }

  lemma SendingStaysCalm(s: State, a: Action, t: ThreadId)
    requires Inv(s) && !Endangered(s) && Enabled(s, a) && !a.Subscribe? && !a.Broadcast?
    requires t in Step(s, a).threads && Step(s, a).threads[t].Sending?
    ensures !AnyDoomed(Step(s, a), Step(s, a).threads[t].remaining)
  {
    assert t in s.threads && !EndangeredThread(s, s.threads[t]);
    var next := Step(s, a);
    forall ch | ch in next.threads[t].remaining ensures !Doomed(next, ch) {
      assert if s.threads[t].Sending? then ch in s.threads[t].remaining else ch in s.receivers;
      assert !Doomed(s, ch) && ch < |s.closings|;
      if a.AppendChannel? {
        MadeIsUnknown(s, a.t);
      }
      if a.ClearReceivers? {
        ClearDoomsNothing(s, ch);
      } else {
        StepDooms(s, a, ch);
      }
    }
  }

  lemma CheckedStaysCalm(s: State, a: Action, t: ThreadId)
    requires Inv(s) && !Endangered(s) && Enabled(s, a) && !a.Subscribe? && !a.Broadcast?
    requires t in Step(s, a).threads && Step(s, a).threads[t].BroadcastChecked?
    ensures !EndangeredThread(Step(s, a), Step(s, a).threads[t])
  {
    assert t in s.threads && !EndangeredThread(s, s.threads[t]);
    var next := Step(s, a);
    assert Subscribing(next) ==> Subscribing(s);
    if a.AppendChannel? {
      assert Subscribing(s) && !BeforeSnapshot(s);
      MadeIsUnknown(s, a.t);
    }
    forall ch | ch in next.receivers ensures !Doomed(next, ch) {
      if !a.ClearReceivers? {
        assert ch in s.receivers || (a.AppendChannel? && ch == s.threads[a.t].channel);
        StepDooms(s, a, ch);
      }
    }
  }

  lemma StepKeepsCalm(s: State, a: Action)
    requires Inv(s) && !s.panicked && !Endangered(s) && Enabled(s, a) && !a.Subscribe? && !a.Broadcast?
    ensures !Step(s, a).panicked && !Endangered(Step(s, a))
  {
    if a.Send? {
      assert !EndangeredThread(s, s.threads[a.t]) && s.threads[a.t].remaining[0] in s.threads[a.t].remaining;
    }
    var next := Step(s, a);
    forall t | t in next.threads ensures !EndangeredThread(next, next.threads[t]) {
      if next.threads[t].Sending? {
        SendingStaysCalm(s, a, t);
      } else if next.threads[t].BroadcastChecked? {
        CheckedStaysCalm(s, a, t);
      }
    }
  }

  lemma {:induction false} CalmNeverPanics(s: State, actions: seq<Action>, t: State)
    requires Inv(s) && !s.panicked && !Endangered(s) && NothingNew(actions) && Executes(s, actions, t)
    ensures !t.panicked
    decreases |actions|
  {
    if actions != [] {
      assert actions[0] in actions;
      assert forall a <- actions[1..] :: a in actions;
      StepKeepsCalm(s, actions[0]);
      StepKeepsInv(s, actions[0]);
      CalmNeverPanics(Step(s, actions[0]), actions[1..], t);
    }
  }

  lemma CanPanicEarlier(s: State, a: Action)
    requires Enabled(s, a) && !a.Subscribe? && !a.Broadcast? && CanPanic(Step(s, a))
    ensures CanPanic(s)
  {
    var actions, t :| NothingNew(actions) && Executes(Step(s, a), actions, t) && t.panicked;
    assert ([a] + actions)[1..] == actions;
    assert NothingNew([a] + actions) && Executes(s, [a] + actions, t);
  }

  function Stage(closer: Closer): nat {
    match closer
    case NotClosing => 3
    case FlagSet => 2
    case DoneClosed => 1
    case ClosingChannels(_) => 0
    case Finished => 0
  }

  /** The next step of `Close` towards closing a doomed channel. */
  function NextClose(s: State): Action {
    match s.closer
    case NotClosing => Close
    case FlagSet => CloseDone
    case DoneClosed => CloseSnapshot
    case _ => CloseNext
  }

  lemma NextCloseIsEnabled(s: State, ch: ChannelId)
    requires Inv(s) && Doomed(s, ch) && ch < |s.closings| && s.closings[ch] == 0
    ensures Enabled(s, NextClose(s))
  {
    if s.closer.ClosingChannels? {
      assert s.closer.remaining[0] in s.closer.remaining;
    }
  }

  /** With a thread that has a doomed channel ahead, a panic is: it sends to the channels before that
      one, and `Close` goes on until it is closed. */
  lemma {:induction false} SendingCanPanic(s: State, t: ThreadId, k: nat)
    requires Inv(s) && t in s.threads && s.threads[t].Sending?
    requires k < |s.threads[t].remaining| && Doomed(s, s.threads[t].remaining[k])
    ensures CanPanic(s)
    decreases k, Stage(s.closer), if s.closer.ClosingChannels? then |s.closer.remaining| else 0
  {
    var channels := s.threads[t].remaining;
    assert channels[0] in channels && channels[k] in channels;
    if s.closings[channels[0]] > 0 {
      OneStep(s, Send(t));
      assert NothingNew([Send(t)]);
    } else {
      var a := if k > 0 then Send(t) else NextClose(s);
      if k == 0 {
        NextCloseIsEnabled(s, channels[0]);
      }
      StepKeepsInv(s, a);
      StepDooms(s, a, channels[k]);
      SendingCanPanic(Step(s, a), t, if k > 0 then k - 1 else 0);
      CanPanicEarlier(s, a);
    }
  }

  lemma SnapshotCanPanic(s: State, t: ThreadId)
    requires Inv(s) && AnyDoomed(s, s.receivers) && t in s.threads && s.threads[t].BroadcastChecked?
    ensures CanPanic(s)
  {
    var k :| 0 <= k < |s.receivers| && Doomed(s, s.receivers[k]);
    assert s.receivers[k] in s.receivers;
    StepKeepsInv(s, Snapshot(t));
    StepDooms(s, Snapshot(t), s.receivers[k]);
    SendingCanPanic(Step(s, Snapshot(t)), t, k);
    CanPanicEarlier(s, Snapshot(t));
  }

  lemma SubscriberCanPanic(s: State, t: ThreadId, u: ThreadId)
    requires Inv(s) && BeforeSnapshot(s) && t in s.threads && s.threads[t].BroadcastChecked?
    requires u in s.threads && (s.threads[u].SubscribeChecked? || s.threads[u].SubscribeMade?)
    ensures CanPanic(s)
    decreases s.threads[u].SubscribeChecked?
  {
    var a := if s.threads[u].SubscribeChecked? then MakeChannel(u) else AppendChannel(u);
    var next := Step(s, a);
    StepKeepsInv(s, a);
    if a.MakeChannel? {
      SubscriberCanPanic(next, t, u);
    } else {
      assert next.receivers[|s.receivers|] in next.receivers;
      SnapshotCanPanic(next, t);
    }
    CanPanicEarlier(s, a);
  }

  /** A broadcast in flight when `Close` runs can meet a closed channel. Exactly: in every reachable
      state, however far `Close` is, the operations in progress and a `Close` can be scheduled into a
      panic iff some broadcast past its check has, or can still pick up, a channel that is closed or
      going to be. */
  lemma PanicIffBroadcastInFlight(s: State)
    requires Reachable(s) && !s.panicked
    ensures CanPanic(s) <==> Endangered(s)
  {
    ReachableInv(s);
    if Endangered(s) {
      var t :| t in s.threads && EndangeredThread(s, s.threads[t]);
      if s.threads[t].Sending? {
        var k :| 0 <= k < |s.threads[t].remaining| && Doomed(s, s.threads[t].remaining[k]);
        SendingCanPanic(s, t, k);
      } else if AnyDoomed(s, s.receivers) {
        SnapshotCanPanic(s, t);
      } else {
        var u :| u in s.threads && (s.threads[u].SubscribeChecked? || s.threads[u].SubscribeMade?);
        SubscriberCanPanic(s, t, u);
      }
    } else if CanPanic(s) {
      var actions, t :| NothingNew(actions) && Executes(s, actions, t) && t.panicked;
      CalmNeverPanics(s, actions, t);
    }
  }

  /** On a stream nobody has closed yet every channel in the list is doomed: a broadcast is endangered
      once it has a channel ahead, or can pick one up. */
  lemma EndangeredWhileOpen(s: State)
    requires Reachable(s) && s.closer.NotClosing?
    ensures Endangered(s) <==>
            exists t :: t in s.threads &&
              (|| (s.threads[t].Sending? && s.threads[t].remaining != [])
               || (s.threads[t].BroadcastChecked? && (s.receivers != [] || Subscribing(s))))
  {
    ReachableInv(s);
    forall t | t in s.threads
      ensures EndangeredThread(s, s.threads[t]) <==>
              || (s.threads[t].Sending? && s.threads[t].remaining != [])
              || (s.threads[t].BroadcastChecked? && (s.receivers != [] || Subscribing(s)))
    {
      if s.threads[t].Sending? && s.threads[t].remaining != [] {
        assert s.threads[t].remaining[0] in s.threads[t].remaining;
      }
      if s.receivers != [] {
        assert s.receivers[0] in s.receivers;
      }
    }
  }

  /** Once `Close` is done nothing closed is left in the list: a broadcast that has yet to take its
      snapshot is safe, and only one that holds a closed channel from an earlier snapshot is not. */
  lemma EndangeredWhenClosed(s: State)
    requires Reachable(s) && s.closer.Finished?
    ensures AllOpen(s, s.receivers)
    ensures Endangered(s) <==>
            exists t :: t in s.threads && s.threads[t].Sending? &&
              exists ch <- s.threads[t].remaining :: ch < |s.closings| && s.closings[ch] > 0
  {
    ReachableInv(s);
    forall t | t in s.threads
      ensures EndangeredThread(s, s.threads[t]) <==>
              s.threads[t].Sending? && exists ch <- s.threads[t].remaining :: ch < |s.closings| && s.closings[ch] > 0
    {
      assert !AnyDoomed(s, s.receivers);
    }
  }

  /** So a broadcast that takes its snapshot after `Close` is done never panics. */
  lemma LateSnapshotIsSafe(s: State, t: ThreadId)
    requires Reachable(s) && s.closer.Finished? && Enabled(s, Snapshot(t))
    ensures AllOpen(Step(s, Snapshot(t)), Step(s, Snapshot(t)).threads[t].remaining)
  {
    ReachableInv(s);
  }

  // ---- With new operations at any time ----

  ghost predicate CanEverPanic(s: State) {
    exists actions, t :: Executes(s, actions, t) && t.panicked
  }

  lemma CanEverPanicEarlier(s: State, a: Action)
    requires Enabled(s, a) && CanEverPanic(Step(s, a))
    ensures CanEverPanic(s)
  {
    var actions, t :| Executes(Step(s, a), actions, t) && t.panicked;
    assert ([a] + actions)[1..] == actions;
    assert Executes(s, [a] + actions, t);
  }

  /** Once `Close` has begun, a `Subscribe` makes a closed channel that no broadcast gets. */
  lemma LateSubscriberKeepsCalm(s: State, a: Action)
    requires Inv(s) && !s.panicked && !Endangered(s) && !s.closer.NotClosing? && a.Subscribe? && Enabled(s, a)
    ensures !Step(s, a).panicked && !Endangered(Step(s, a))
  {
    var next := Step(s, a);
    forall t | t in next.threads ensures !EndangeredThread(next, next.threads[t]) {
      assert !EndangeredThread(s, s.threads[t]);
      assert forall ch | 0 <= ch < |s.closings| :: Doomed(next, ch) == Doomed(s, ch);
    }
  }

  lemma {:induction false} LateOperationsKeepCalm(s: State, actions: seq<Action>, t: State)
    requires Inv(s) && !s.panicked && !Endangered(s) && !s.closer.NotClosing? && Executes(s, actions, t)
    ensures !t.panicked
    decreases |actions|
  {
    if actions != [] {
      var a := actions[0];
      if a.Subscribe? {
        LateSubscriberKeepsCalm(s, a);
      } else if !a.Broadcast? {
        StepKeepsCalm(s, a);
      }
      StepKeepsInv(s, a);
      LateOperationsKeepCalm(Step(s, a), actions[1..], t);
    }
  }

  lemma UnusedThread(threads: map<ThreadId, Pc>) returns (t: ThreadId)
    ensures t !in threads
  {
    t := 0;
    var below: set<ThreadId> := {};
    while t in threads
      invariant below <= threads.Keys && |below| == t && forall u <- below :: u < t
      decreases |threads.Keys - below|
    {
      below := below + {t};
      t := t + 1;
    }
  }

  /** On an open stream with a receiver, a new broadcast can run into a `Close`. */
  lemma NewBroadcastCanPanic(s: State)
    requires Inv(s) && s.closer.NotClosing? && s.receivers != []
    ensures CanEverPanic(s)
  {
    var t := UnusedThread(s.threads);
    var next := Step(s, Broadcast(t));
    StepKeepsInv(s, Broadcast(t));
    assert next.receivers[0] in next.receivers;
    SnapshotCanPanic(next, t);
    CanEverPanicEarlier(s, Broadcast(t));
  }

  lemma NewSubscriberCanPanic(s: State)
    requires Inv(s) && s.closer.NotClosing?
    ensures CanEverPanic(s)
  {
    var t := UnusedThread(s.threads);
    var s1 := Step(s, Subscribe(t));
    var s2 := Step(s1, MakeChannel(t));
    StepKeepsInv(s, Subscribe(t));
    StepKeepsInv(s1, MakeChannel(t));
    StepKeepsInv(s2, AppendChannel(t));
    NewBroadcastCanPanic(Step(s2, AppendChannel(t)));
    CanEverPanicEarlier(s2, AppendChannel(t));
    CanEverPanicEarlier(s1, MakeChannel(t));
    CanEverPanicEarlier(s, Subscribe(t));
  }

  /** Over all continuations: a panic lies ahead exactly while nobody has begun to close the stream, or
      while a broadcast that had passed its check by then is endangered. */
  lemma PanicIffOpenOrInFlight(s: State)
    requires Reachable(s) && !s.panicked
    ensures CanEverPanic(s) <==> s.closer.NotClosing? || Endangered(s)
  {
    ReachableInv(s);
    PanicIffBroadcastInFlight(s);
    if s.closer.NotClosing? {
      NewSubscriberCanPanic(s);
    } else if !Endangered(s) && CanEverPanic(s) {
      var actions, t :| Executes(s, actions, t) && t.panicked;
      LateOperationsKeepCalm(s, actions, t);
    }
  }
}
