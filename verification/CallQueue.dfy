/**
  The outgoing call queue of `acp/connection_core.go` as a transition system: any number of
  concurrent `Call`s, the bounded channel, the one `processCallQueue` goroutine, cancellation of
  each caller's context and of the processor's context, and repeated `Close`.

  Every `select` is a free choice between its ready branches, so an execution is a list of
  actions each of which is enabled when it is taken. `callDirect` is the action `Complete` with an
  arbitrary outcome.
 */
module CallQueue {
  import opened Sequences
  import opened Wrappers

  /** `defaultCallQueueSize` */
  const QUEUE_SIZE := 100

  type CallId = nat
  type Error = string

  /** `callResult`: an `interface{}` result (None is nil) and an error (None is nil). */
  datatype CallResult = CallResult(result: Option<string>, err: Option<Error>)

  /** How a `Call` returned: through its result branch, `ctx.Done()`, or `closed`. */
  datatype Verdict = FromResult(taken: CallResult, err: Option<Error>) | FromContext | FromClosed

  /** Where a `Call` is: at its first `select`, at its second one, or returned. */
  datatype Phase = Enqueueing | Waiting | Returned(verdict: Verdict)

  /** One `Call` in progress; `reply` is the content of its one-slot `resultChan`. */
  datatype Call = Call(wantsResult: bool, phase: Phase, cancelled: bool, reply: seq<CallResult>)

  datatype Processor = Selecting | Calling(id: CallId) | Delivering(id: CallId, outcome: CallResult) | Stopped

  /** The shared state, and below it history that no step reads. */
  datatype State = State(
    calls: seq<Call>,
    queue: seq<CallId>,
    processor: Processor,
    processorCancelled: bool,
    closed: bool,
    enqueued: seq<CallId>,
    started: seq<CallId>,
    finished: seq<CallId>,
    outcomes: map<CallId, CallResult>,
    sent: seq<CallId>,
    closings: nat)

  const INITIAL := State([], [], Selecting, false, false, [], [], [], map[], [], 0)

  datatype Action =
    | StartCall(wantsResult: bool)
    | Enqueue(id: CallId)
    | ReturnOnContext(id: CallId)
    | ReturnOnClosed(id: CallId)
    | TakeReply(id: CallId, conversion: Option<Error>)
    | Dequeue
    | Complete(outcome: CallResult)
    | Deliver
    | DropReply
    | StopOnContext
    | StopOnClosed
    | CancelCall(id: CallId)
    | CancelProcessor
    | Close

  predicate Live(s: State, id: CallId) {
    id < |s.calls| && !s.calls[id].phase.Returned?
  }

  predicate CallReturned(s: State, id: CallId) {
    id < |s.calls| && s.calls[id].phase.Returned?
  }

  predicate Enabled(s: State, a: Action) {
    match a
    case StartCall(_) => true
    case Enqueue(id) => id < |s.calls| && s.calls[id].phase.Enqueueing? && |s.queue| < QUEUE_SIZE
    case ReturnOnContext(id) => Live(s, id) && s.calls[id].cancelled
    case ReturnOnClosed(id) => Live(s, id) && s.closed
    case TakeReply(id, _) => id < |s.calls| && s.calls[id].phase.Waiting? && s.calls[id].reply != []
    case Dequeue => s.processor.Selecting? && s.queue != []
    case Complete(_) => s.processor.Calling?
    case Deliver => s.processor.Delivering? && s.processor.id < |s.calls| && |s.calls[s.processor.id].reply| < 1
    case DropReply => s.processor.Delivering? && s.processor.id < |s.calls| && s.calls[s.processor.id].cancelled
    case StopOnContext => s.processor.Selecting? && s.processorCancelled
    case StopOnClosed => s.processor.Selecting? && s.closed
    case CancelCall(id) => id < |s.calls|
    case CancelProcessor => true
    case Close => true
  }

  /** The error `Call` returns once it has taken `taken` from its channel; `conversion` is the error
      of copying the result into the caller's variable, if that is attempted. */
  function ReturnedError(taken: CallResult, wantsResult: bool, conversion: Option<Error>): Option<Error> {
    if taken.err.Some? then taken.err
    else if wantsResult && taken.result.Some? then conversion
    else None
  }

  function SetPhase(s: State, id: CallId, phase: Phase): State
    requires id < |s.calls|
  {
    s.(calls := s.calls[id := s.calls[id].(phase := phase)])
  }

  function Step(s: State, a: Action): State
    requires Enabled(s, a)
  {
    match a
    case StartCall(wantsResult) =>
      s.(calls := s.calls + [Call(wantsResult, Enqueueing, false, [])])
    case Enqueue(id) =>
      SetPhase(s, id, Waiting).(queue := s.queue + [id], enqueued := s.enqueued + [id])
    case ReturnOnContext(id) => SetPhase(s, id, Returned(FromContext))
    case ReturnOnClosed(id) => SetPhase(s, id, Returned(FromClosed))
    case TakeReply(id, conversion) =>
      var c := s.calls[id];
      var verdict := FromResult(c.reply[0], ReturnedError(c.reply[0], c.wantsResult, conversion));
      s.(calls := s.calls[id := c.(phase := Returned(verdict), reply := c.reply[1..])])
    case Dequeue =>
      s.(queue := s.queue[1..], processor := Calling(s.queue[0]), started := s.started + [s.queue[0]])
    case Complete(outcome) =>
      s.(processor := Delivering(s.processor.id, outcome), outcomes := s.outcomes[s.processor.id := outcome])
    case Deliver =>
      var id := s.processor.id;
      var c := s.calls[id];
      s.(calls := s.calls[id := c.(reply := c.reply + [s.processor.outcome])], processor := Selecting,
         finished := s.finished + [id], sent := s.sent + [id])
    case DropReply => s.(processor := Selecting, finished := s.finished + [s.processor.id])
    case StopOnContext => s.(processor := Stopped)
    case StopOnClosed => s.(processor := Stopped)
    case CancelCall(id) => s.(calls := s.calls[id := s.calls[id].(cancelled := true)])
    case CancelProcessor => s.(processorCancelled := true)
    case Close => if s.closed then s else s.(closed := true, closings := s.closings + 1)
  }

  /** `actions` lead from `s` to `t`, each enabled when it is taken. */
  ghost predicate Executes(s: State, actions: seq<Action>, t: State)
    decreases |actions|
  {
    if actions == [] then s == t
    else Enabled(s, actions[0]) && Executes(Step(s, actions[0]), actions[1..], t)
  }

  ghost predicate Reachable(s: State) {
    exists actions :: Executes(INITIAL, actions, s)
  }

  // ---- The invariant ----

  function InFlight(p: Processor): seq<CallId> {
    if p.Calling? || p.Delivering? then [p.id] else []
  }

  /** What holds of one call, given how far it has come. */
  ghost predicate CallInv(c: Call, enqueued: bool, finished: bool, sent: bool, outcome: Option<CallResult>,
                          closed: bool) {
    && (c.phase.Enqueueing? ==> !enqueued)
    && (c.phase.Waiting? ==> enqueued)
    && (c.phase == Returned(FromContext) ==> c.cancelled)
    && (c.phase == Returned(FromClosed) ==> closed)
    && (finished ==> enqueued)
    && (sent ==> finished && outcome.Some?)
    && (finished && !sent ==> c.cancelled)
    && (c.reply != [] ==> sent && c.reply == [outcome.value])
    && (sent && c.reply == [] ==> c.phase.Returned? && c.phase.verdict.FromResult?)
    && (c.phase.Returned? && c.phase.verdict.FromResult? ==>
          && sent && c.reply == []
          && c.phase.verdict.taken == outcome.value
          && exists conversion :: c.phase.verdict.err == ReturnedError(outcome.value, c.wantsResult, conversion))
  }

  function Outcome(s: State, id: CallId): Option<CallResult> {
    if id in s.outcomes then Some(s.outcomes[id]) else None
  }

  ghost predicate CallOk(s: State, id: CallId)
    requires id < |s.calls|
  {
    CallInv(s.calls[id], id in s.enqueued, id in s.finished, id in s.sent, Outcome(s, id), s.closed)
  }

  ghost predicate CallsInv(s: State) {
    forall id: CallId | id < |s.calls| :: CallOk(s, id)
  }

  /** What holds of the channel, the processor and the histories. */
  ghost predicate QueueInv(s: State) {
    && s.enqueued == s.started + s.queue
    && s.started == s.finished + InFlight(s.processor)
    && |s.queue| <= QUEUE_SIZE
    && Distinct(s.enqueued)
    && (forall id <- s.enqueued :: id < |s.calls|)
    && Distinct(s.sent)
    && (forall id <- s.sent :: id in s.finished)
    && (s.processor.Delivering? ==> Outcome(s, s.processor.id) == Some(s.processor.outcome))
    && s.closings == (if s.closed then 1 else 0)
    && (s.processor.Stopped? ==> s.closed || s.processorCancelled)
  }

  ghost predicate Inv(s: State) {
    QueueInv(s) && CallsInv(s)
  }

  lemma FinishedWereEnqueued(s: State, id: CallId)
    requires QueueInv(s) && id in s.finished
    ensures id in s.started && id in s.enqueued
  {
    var k :| 0 <= k < |s.finished| && s.finished[k] == id;
    assert s.started[k] == id;
    assert s.enqueued[k] == id;
  }

  /** The call the processor holds has not been answered, so its reply channel is empty. */
  lemma InFlightIsUnanswered(s: State)
    requires Inv(s) && (s.processor.Calling? || s.processor.Delivering?)
    ensures var id := s.processor.id;
            id < |s.calls| && id in s.enqueued && id !in s.finished && id !in s.sent && s.calls[id].reply == []
  {
    var id := s.processor.id;
    var n := |s.finished|;
    assert s.started[n] == id;
    assert s.enqueued[n] == id;
    forall k | 0 <= k < n ensures s.finished[k] != id {
      assert s.enqueued[k] == s.started[k] == s.finished[k];
    }
    assert id in s.enqueued;
    assert CallOk(s, id);
  }

  lemma EnqueueKeepsQueueInv(s: State, id: CallId)
    requires Inv(s) && Enabled(s, Enqueue(id))
    ensures QueueInv(Step(s, Enqueue(id)))
  {
    assert CallOk(s, id);
    var t := Step(s, Enqueue(id));
    assert t.enqueued == s.enqueued + [id];
    assert t.started + t.queue == (s.started + s.queue) + [id];
  }

  lemma DequeueKeepsQueueInv(s: State)
    requires Inv(s) && Enabled(s, Dequeue)
    ensures QueueInv(Step(s, Dequeue))
  {
    var t := Step(s, Dequeue);
    assert s.queue == [s.queue[0]] + t.queue;
    assert t.started + t.queue == s.started + s.queue;
    assert t.started == t.finished + [s.queue[0]];
  }

  /** The answer to the call in flight, sent or dropped. */
  lemma AnswerKeepsQueueInv(s: State, a: Action)
    requires Inv(s) && Enabled(s, a) && (a.Deliver? || a.DropReply?)
    ensures QueueInv(Step(s, a))
  {
    InFlightIsUnanswered(s);
    var t := Step(s, a);
    assert t.started == t.finished;
  }

  lemma StepKeepsQueueInv(s: State, a: Action)
    requires Inv(s) && Enabled(s, a)
    ensures QueueInv(Step(s, a))
  {
    match a {
      case Enqueue(id) => EnqueueKeepsQueueInv(s, id);
      case Dequeue => DequeueKeepsQueueInv(s);
      case Deliver => AnswerKeepsQueueInv(s, a);
      case DropReply => AnswerKeepsQueueInv(s, a);
      case _ =>
        var t := Step(s, a);
        assert t.enqueued == s.enqueued && t.started == s.started && t.finished == s.finished && t.sent == s.sent;
        assert t.queue == s.queue && InFlight(t.processor) == InFlight(s.processor) && |t.calls| >= |s.calls|;
    }
  }

  /** The call a step is about, if any. */
  function Subject(s: State, a: Action): Option<CallId> {
    match a
    case Enqueue(id) => Some(id)
    case ReturnOnContext(id) => Some(id)
    case ReturnOnClosed(id) => Some(id)
    case TakeReply(id, _) => Some(id)
    case CancelCall(id) => Some(id)
    case Complete(_) => if s.processor.Calling? then Some(s.processor.id) else None
    case Deliver => if s.processor.Delivering? then Some(s.processor.id) else None
    case DropReply => if s.processor.Delivering? then Some(s.processor.id) else None
    case _ => None
  }

  lemma OthersUnchanged(s: State, a: Action, id: CallId)
    requires Enabled(s, a) && id < |s.calls| && Subject(s, a) != Some(id)
    ensures var t := Step(s, a);
            && id < |t.calls| && t.calls[id] == s.calls[id]
            && (id in t.enqueued <==> id in s.enqueued)
            && (id in t.finished <==> id in s.finished)
            && (id in t.sent <==> id in s.sent)
            && Outcome(t, id) == Outcome(s, id)
            && (s.closed ==> t.closed)
  {
  }

  lemma CancelKeepsCallInv(s: State, id: CallId)
    requires Inv(s) && id < |s.calls|
    ensures CallOk(Step(s, CancelCall(id)), id)
  {
    assert CallOk(s, id);
  }

  lemma CompleteKeepsCallInv(s: State, outcome: CallResult)
    requires Inv(s) && Enabled(s, Complete(outcome))
    ensures s.processor.id < |s.calls| && CallOk(Step(s, Complete(outcome)), s.processor.id)
  {
    InFlightIsUnanswered(s);
    assert CallOk(s, s.processor.id);
  }

  lemma DropKeepsCallInv(s: State)
    requires Inv(s) && Enabled(s, DropReply)
    ensures CallOk(Step(s, DropReply), s.processor.id)
  {
    InFlightIsUnanswered(s);
    assert CallOk(s, s.processor.id);
  }

  lemma TakeReplyKeepsCallInv(s: State, id: CallId, conversion: Option<Error>)
    requires Inv(s) && Enabled(s, TakeReply(id, conversion))
    ensures CallOk(Step(s, TakeReply(id, conversion)), id)
  {
    assert CallOk(s, id);
    var c := Step(s, TakeReply(id, conversion)).calls[id];
    assert c.phase.verdict.err == ReturnedError(s.outcomes[id], c.wantsResult, conversion);
  }

  lemma DeliverKeepsCallInv(s: State)
    requires Inv(s) && Enabled(s, Deliver)
    ensures CallOk(Step(s, Deliver), s.processor.id)
  {
    InFlightIsUnanswered(s);
    assert CallOk(s, s.processor.id);
    assert Step(s, Deliver).calls[s.processor.id].reply == [s.processor.outcome];
  }

  lemma SubjectKeepsCallInv(s: State, a: Action, id: CallId)
    requires Inv(s) && Enabled(s, a) && id < |s.calls| && Subject(s, a) == Some(id)
    ensures id < |Step(s, a).calls| && CallOk(Step(s, a), id)
  {
    assert CallOk(s, id);
    match a {
      case Enqueue(_) =>
      case ReturnOnContext(_) =>
      case ReturnOnClosed(_) =>
      case CancelCall(_) => CancelKeepsCallInv(s, id);
      case TakeReply(_, conversion) => TakeReplyKeepsCallInv(s, id, conversion);
      case Complete(outcome) => CompleteKeepsCallInv(s, outcome);
      case Deliver => DeliverKeepsCallInv(s);
      case DropReply => DropKeepsCallInv(s);
    }
  }

  lemma StepKeepsCallsInv(s: State, a: Action)
    requires Inv(s) && Enabled(s, a)
    ensures CallsInv(Step(s, a))
  {
    var t := Step(s, a);
    if a.Complete? || a.Deliver? || a.DropReply? {
      InFlightIsUnanswered(s);
    }
    forall id: CallId | id < |t.calls| ensures CallOk(t, id) {
      if id < |s.calls| {
        assert CallOk(s, id);
        if Subject(s, a) == Some(id) {
          SubjectKeepsCallInv(s, a, id);
        } else {
          OthersUnchanged(s, a, id);
        }
      } else {
        if id in s.finished { FinishedWereEnqueued(s, id); }
        assert id !in s.enqueued && id !in s.finished && id !in s.sent;
      }
    }
  }

  lemma {:induction false} ExecutionKeepsInv(s: State, actions: seq<Action>, t: State)
    requires Inv(s) && Executes(s, actions, t)
    ensures Inv(t)
    decreases |actions|
  {
    if actions != [] {
      StepKeepsQueueInv(s, actions[0]);
      StepKeepsCallsInv(s, actions[0]);
      ExecutionKeepsInv(Step(s, actions[0]), actions[1..], t);
    }
  }

  lemma ReachableInv(s: State)
    requires Reachable(s)
    ensures Inv(s)
  {
    var actions :| Executes(INITIAL, actions, s);
    ExecutionKeepsInv(INITIAL, actions, s);
  }

  lemma {:induction false} ExecutesConcat(s: State, a: seq<Action>, m: State, b: seq<Action>, t: State)
    requires Executes(s, a, m) && Executes(m, b, t)
    ensures Executes(s, a + b, t)
    decreases |a|
  {
    if a == [] {
      assert a + b == b;
    } else {
      assert (a + b)[1..] == a[1..] + b;
      ExecutesConcat(Step(s, a[0]), a[1..], m, b, t);
    }
  }

  lemma StaysReachable(s: State, a: Action)
    requires Reachable(s) && Enabled(s, a)
    ensures Reachable(Step(s, a))
  {
    var actions :| Executes(INITIAL, actions, s);
    assert [a][1..] == [] && Executes(s, [a], Step(s, a));
    ExecutesConcat(INITIAL, actions, s, [a], Step(s, a));
  }
}
