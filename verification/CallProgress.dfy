/**
  How the outgoing calls of `CallQueue` get on: the work left to the processor, and when a blocked
  caller can still return.
 */
module CallProgress {
  import opened CallQueue
  import opened CallResults
  import opened Wrappers

  // ---- Progress of the processor ----

  /** Processor steps still needed to finish what is in the channel and in flight. */
  function Work(s: State): nat {
    3 * |s.queue| + (if s.processor.Calling? then 2 else if s.processor.Delivering? then 1 else 0)
  }

  function ProcessorSteps(actions: seq<Action>): nat {
    if actions == [] then 0
    else (if actions[0].Dequeue? || actions[0].Complete? || actions[0].Deliver? || actions[0].DropReply? then 1 else 0)
         + ProcessorSteps(actions[1..])
  }

  /** Exact accounting over any run: each call enqueued is worth three processor steps (dequeue,
      call, answer), each taken once. With nothing enqueued, `Work` falls by one at each of them. */
  lemma {:induction false} WorkIsConserved(s: State, actions: seq<Action>, t: State)
    requires Executes(s, actions, t)
    ensures Work(t) + ProcessorSteps(actions) == Work(s) + 3 * |EnqueuedBy(actions)|
    decreases |actions|
  {
    if actions != [] {
      WorkIsConserved(Step(s, actions[0]), actions[1..], t);
    }
  }

  /** The processor stops by its own context or by the closed signal, only if that is on, and for good. */
  lemma {:induction false} StopsForGood(s: State, actions: seq<Action>, t: State)
    requires Executes(s, actions, t)
    ensures t.processor.Stopped? <==> s.processor.Stopped? || StopOnContext in actions || StopOnClosed in actions
    ensures t.processorCancelled <==> s.processorCancelled || CancelProcessor in actions
    ensures StopOnContext in actions ==> t.processorCancelled
    ensures StopOnClosed in actions ==> t.closed
    decreases |actions|
  {
    if actions != [] {
      assert actions == [actions[0]] + actions[1..];
      var next := Step(s, actions[0]);
      StopsForGood(next, actions[1..], t);
      ClosedRecordsTheRun(next, actions[1..], t);
    }
  }

  // ---- When a caller can return ----

  /** Neither `Close` nor a cancellation of call `id`. */
  predicate Unaided(actions: seq<Action>, id: CallId) {
    forall a <- actions :: a != Close && a != CancelCall(id)
  }

  /** Some continuation, with neither `Close` nor a cancellation of `id`, in which `id` returns. */
  ghost predicate CanReturnUnaided(s: State, id: CallId) {
    exists actions, t :: Unaided(actions, id) && Executes(s, actions, t) && CallReturned(t, id)
  }

  /** The one way to be stuck: the processor has stopped, and no branch of the caller's `select`
      other than its result can become ready by itself. */
  predicate Stranded(s: State, id: CallId) {
    Live(s, id) && s.processor.Stopped? && !s.closed && !s.calls[id].cancelled && s.calls[id].reply == []
  }

  lemma {:induction false} StrandedStaysStranded(s: State, actions: seq<Action>, t: State, id: CallId)
    requires Stranded(s, id) && Unaided(actions, id) && Executes(s, actions, t)
    ensures Stranded(t, id)
    decreases |actions|
  {
    if actions != [] {
      assert actions[0] in actions;
      assert Stranded(Step(s, actions[0]), id);
      assert forall a <- actions[1..] :: a in actions;
      StrandedStaysStranded(Step(s, actions[0]), actions[1..], t, id);
    }
  }

  /** The next step towards returning `id` when the processor is alive. */
  function NextStep(s: State, id: CallId): Action
    requires id < |s.calls|
  {
    if s.calls[id].cancelled then ReturnOnContext(id)
    else if s.closed then ReturnOnClosed(id)
    else if s.calls[id].reply != [] then TakeReply(id, None)
    else if s.calls[id].phase.Enqueueing? && |s.queue| < QUEUE_SIZE then Enqueue(id)
    else if s.processor.Selecting? then Dequeue
    else if s.processor.Calling? then Complete(CallResult(None, None))
    else Deliver
  }

  /** Enqueueing is three steps of work and one of progress. */
  function Distance(s: State, id: CallId): nat
    requires id < |s.calls|
  {
    Work(s) + match s.calls[id].phase
              case Enqueueing => 5
              case Waiting => 1
              case Returned(_) => 0
  }

  lemma NextStepIsEnabled(s: State, id: CallId)
    requires Inv(s) && Live(s, id) && !Stranded(s, id)
    ensures Enabled(s, NextStep(s, id))
    ensures var t := Step(s, NextStep(s, id)); id < |t.calls| && Distance(t, id) < Distance(s, id) && !Stranded(t, id)
  {
    assert CallOk(s, id);
    if s.processor.Delivering? {
      InFlightIsUnanswered(s);
    }
    // A waiting call whose reply is empty is in the channel or in flight.
    assert s.enqueued == s.finished + InFlight(s.processor) + s.queue;
  }

  lemma {:induction false} LiveProcessorCanReturn(s: State, id: CallId)
    requires Inv(s) && id < |s.calls| && (Live(s, id) ==> !Stranded(s, id))
    ensures CanReturnUnaided(s, id)
    decreases Distance(s, id)
  {
    if CallReturned(s, id) {
      assert Unaided([], id) && Executes(s, [], s);
    } else {
      var a := NextStep(s, id);
      NextStepIsEnabled(s, id);
      StepKeepsQueueInv(s, a);
      StepKeepsCallsInv(s, a);
      LiveProcessorCanReturn(Step(s, a), id);
      var actions, t :| Unaided(actions, id) && Executes(Step(s, a), actions, t) && CallReturned(t, id);
      assert ([a] + actions)[1..] == actions;
      assert Unaided([a] + actions, id) && Executes(s, [a] + actions, t);
    }
  }

  /** The exact condition for progress without help: in every reachable state a blocked caller can
      still return iff it is not stranded, that is, unless the processor has stopped while its own
      context was done and nobody called `Close`. A stranded caller without a deadline waits until
      somebody does. */
  lemma ReturnsUnlessStranded(s: State, id: CallId)
    requires Reachable(s) && Live(s, id)
    ensures CanReturnUnaided(s, id) <==> !Stranded(s, id)
    ensures Stranded(s, id) ==> s.processorCancelled
  {
    ReachableInv(s);
    if Stranded(s, id) {
      if CanReturnUnaided(s, id) {
        var actions, t :| Unaided(actions, id) && Executes(s, actions, t) && CallReturned(t, id);
        StrandedStaysStranded(s, actions, t, id);
        assert false;
      }
    } else {
      LiveProcessorCanReturn(s, id);
    }
  }

  /** Being stranded is not hypothetical: the processor leaves on its context, a call is enqueued. */
  lemma SomeCallerIsStranded()
    ensures exists s :: Reachable(s) && Stranded(s, 0) && s.calls[0].phase.Waiting?
  {
    assert Executes(INITIAL, [], INITIAL);
    var s1 := Step(INITIAL, CancelProcessor);
    var s2 := Step(s1, StopOnContext);
    var s3 := Step(s2, StartCall(false));
    StaysReachable(INITIAL, CancelProcessor);
    StaysReachable(s1, StopOnContext);
    StaysReachable(s2, StartCall(false));
    StaysReachable(s3, Enqueue(0));
    assert Stranded(Step(s3, Enqueue(0)), 0);
  }
}
