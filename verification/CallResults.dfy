/** What holds of the outgoing calls of `CallQueue` over whole runs: their order, what they return, and what
    `Close` does for them. */
module CallResults {
  import opened CallQueue
  import opened Sequences
  import opened Wrappers

  /** The ids enqueued by a list of actions, in order. */
  function EnqueuedBy(actions: seq<Action>): seq<CallId> {
    if actions == [] then []
    else (if actions[0].Enqueue? then [actions[0].id] else []) + EnqueuedBy(actions[1..])
  }

  function Dequeues(actions: seq<Action>): nat {
    if actions == [] then 0 else (if actions[0].Dequeue? then 1 else 0) + Dequeues(actions[1..])
  }

  lemma {:induction false} HistoriesRecordTheRun(s: State, actions: seq<Action>, t: State)
    requires Executes(s, actions, t)
    ensures t.enqueued == s.enqueued + EnqueuedBy(actions)
    ensures |t.started| == |s.started| + Dequeues(actions)
    decreases |actions|
  {
    if actions != [] {
      HistoriesRecordTheRun(Step(s, actions[0]), actions[1..], t);
    }
  }

  /** First in, first out, with nothing lost or started twice: the calls enqueued over a whole run
      are distinct, and are exactly those dequeued, in order, followed by the channel's content; the
      channel holds at most 100, and at most one dequeued call is not yet finished. */
  lemma FirstInFirstOut(actions: seq<Action>, t: State)
    requires Executes(INITIAL, actions, t)
    ensures EnqueuedBy(actions) == t.started + t.queue
    ensures |t.started| == Dequeues(actions)
    ensures Distinct(EnqueuedBy(actions))
    ensures |t.queue| <= 100
    ensures t.finished <= t.started && |t.started| <= |t.finished| + 1
  {
    HistoriesRecordTheRun(INITIAL, actions, t);
    ExecutionKeepsInv(INITIAL, actions, t);
  }

  /** A `Call` that returned through its result branch was dequeued, received the outcome produced
      for its own request, and reports no error only if that outcome has none. */
  lemma ResultIsForOwnRequest(s: State, id: CallId)
    requires Reachable(s)
    requires id < |s.calls| && s.calls[id].phase.Returned? && s.calls[id].phase.verdict.FromResult?
    ensures var v := s.calls[id].phase.verdict;
            && id in s.started && id in s.outcomes && v.taken == s.outcomes[id]
            && (s.outcomes[id].err.Some? ==> v.err == s.outcomes[id].err)
            && (v.err.None? ==> s.outcomes[id].err.None?)
            && (s.outcomes[id].err.None? && (!s.calls[id].wantsResult || s.outcomes[id].result.None?) ==> v.err.None?)
    ensures s.calls[id].reply == []
  {
    ReachableInv(s);
    assert CallOk(s, id);
    FinishedWereEnqueued(s, id);
  }

  /** A `Call` blames its context, or the closed connection, only if that is the case. */
  lemma VerdictsAreTruthful(s: State, id: CallId)
    requires Reachable(s) && id < |s.calls|
    ensures s.calls[id].phase == Returned(FromContext) ==> s.calls[id].cancelled
    ensures s.calls[id].phase == Returned(FromClosed) ==> s.closed
  {
    ReachableInv(s);
    assert CallOk(s, id);
  }

  /** Each reply channel is sent to at most once, so its single slot is always free for the send:
      the processor is never held up by a caller that has left. */
  lemma DeliveryNeverBlocks(s: State)
    requires Reachable(s)
    ensures Distinct(s.sent)
    ensures s.processor.Delivering? ==> Enabled(s, Deliver)
  {
    ReachableInv(s);
    if s.processor.Delivering? {
      InFlightIsUnanswered(s);
    }
  }

  /** The closed signal never reverts: it is on iff some `Close` ran, and was then closed once. */
  lemma {:induction false} ClosedRecordsTheRun(s: State, actions: seq<Action>, t: State)
    requires Executes(s, actions, t)
    ensures t.closed <==> s.closed || Close in actions
    ensures t.closings == s.closings + if !s.closed && Close in actions then 1 else 0
    decreases |actions|
  {
    if actions != [] {
      assert actions == [actions[0]] + actions[1..];
      ClosedRecordsTheRun(Step(s, actions[0]), actions[1..], t);
    }
  }

  predicate CancelledCall(s: State, id: CallId) {
    id < |s.calls| && s.calls[id].cancelled
  }

  lemma StepSettlesCall(s: State, a: Action, id: CallId)
    requires Enabled(s, a)
    ensures CancelledCall(Step(s, a), id) <==> CancelledCall(s, id) || a == CancelCall(id)
    ensures CallReturned(s, id) ==>
              id < |Step(s, a).calls| && Step(s, a).calls[id].phase == s.calls[id].phase
  {
    if id < |s.calls| && Subject(s, a) != Some(id) {
      OthersUnchanged(s, a, id);
    }
  }

  /** Nor does a call's own context, which is done iff it was cancelled; and a verdict is final. */
  lemma {:induction false} CallRecordsTheRun(s: State, actions: seq<Action>, t: State, id: CallId)
    requires Executes(s, actions, t)
    ensures CancelledCall(t, id) <==> CancelledCall(s, id) || CancelCall(id) in actions
    ensures CallReturned(s, id) ==> id < |t.calls| && t.calls[id].phase == s.calls[id].phase
    decreases |actions|
  {
    if actions != [] {
      assert actions == [actions[0]] + actions[1..];
      StepSettlesCall(s, actions[0], id);
      CallRecordsTheRun(Step(s, actions[0]), actions[1..], t, id);
    }
  }

  /** The `wantsResult` of each call started by a list of actions, in order. */
  function StartedBy(actions: seq<Action>): seq<bool> {
    if actions == [] then []
    else (if actions[0].StartCall? then [actions[0].wantsResult] else []) + StartedBy(actions[1..])
  }

  lemma {:induction false} CallsAreCounted(s: State, actions: seq<Action>, t: State)
    requires Executes(s, actions, t)
    ensures |t.calls| == |s.calls| + |StartedBy(actions)|
    decreases |actions|
  {
    if actions != [] {
      CallsAreCounted(Step(s, actions[0]), actions[1..], t);
    }
  }

  /** What a call wants is what it was started with: the calls of a run are numbered as they start. */
  lemma {:induction false} CallsKeepWhatTheyWant(s: State, actions: seq<Action>, t: State, id: CallId)
    requires Executes(s, actions, t) && id < |t.calls|
    ensures id < |s.calls| ==> t.calls[id].wantsResult == s.calls[id].wantsResult
    ensures id >= |s.calls| ==>
              && id - |s.calls| < |StartedBy(actions)|
              && t.calls[id].wantsResult == StartedBy(actions)[id - |s.calls|]
    decreases |actions|
  {
    CallsAreCounted(s, actions, t);
    if actions != [] {
      CallsKeepWhatTheyWant(Step(s, actions[0]), actions[1..], t, id);
    }
  }

  lemma OnlyTakeReplyGivesResults(s: State, a: Action, id: CallId)
    requires Enabled(s, a) && !CallReturned(s, id) && CallReturned(Step(s, a), id)
    requires Step(s, a).calls[id].phase.verdict.FromResult?
    ensures a.TakeReply? && a.id == id && id < |s.calls|
    ensures var v := Step(s, a).calls[id].phase.verdict;
            v.err == if v.taken.err.Some? then v.taken.err
                     else if v.taken.result.Some? && s.calls[id].wantsResult then a.conversion
                     else None
  {
    if id < |s.calls| && Subject(s, a) != Some(id) {
      OthersUnchanged(s, a, id);
    }
  }

  /** The error of a call that returned through its result branch is the outcome's, if it has one;
      otherwise that of converting the result into the caller's variable, if there are both, as found by
      the step that took the reply; otherwise none. */
  lemma {:induction false} ConversionDecides(s: State, actions: seq<Action>, t: State, id: CallId)
    requires Executes(s, actions, t) && !CallReturned(s, id) && CallReturned(t, id)
    requires t.calls[id].phase.verdict.FromResult?
    ensures t.calls[id].phase.verdict.taken.err.Some? ==>
              t.calls[id].phase.verdict.err == t.calls[id].phase.verdict.taken.err
    ensures t.calls[id].phase.verdict.taken.err.None? && t.calls[id].phase.verdict.taken.result.Some? &&
            t.calls[id].wantsResult ==>
              TakeReply(id, t.calls[id].phase.verdict.err) in actions
    ensures t.calls[id].phase.verdict.taken.err.None? &&
            (t.calls[id].phase.verdict.taken.result.None? || !t.calls[id].wantsResult) ==>
              t.calls[id].phase.verdict.err.None?
    decreases |actions|
  {
    var next := Step(s, actions[0]);
    assert actions == [actions[0]] + actions[1..];
    if CallReturned(next, id) {
      CallRecordsTheRun(next, actions[1..], t, id);
      OnlyTakeReplyGivesResults(s, actions[0], id);
      CallsKeepWhatTheyWant(s, actions, t, id);
      assert TakeReply(id, actions[0].conversion) in actions;
    } else {
      ConversionDecides(next, actions[1..], t, id);
    }
  }

  /** The call has returned, or the next step can be its return with this verdict. */
  ghost predicate ReturnsAtOnce(s: State, id: CallId, how: Action, verdict: Verdict)
    requires id < |s.calls|
  {
    s.calls[id].phase.Returned? || (Enabled(s, how) && Step(s, how).calls[id].phase == Returned(verdict))
  }

  /** Over every run: the signal is closed once if `Close` ran at all, however often, and not
      otherwise. At every point after the first `Close`, and after a cancellation of its own, each
      call has returned or can do so in one step; without either it does not blame them. */
  lemma CloseFreesEveryCaller(actions: seq<Action>, t: State, id: CallId)
    requires Executes(INITIAL, actions, t) && id < |t.calls|
    ensures t.closed <==> Close in actions
    ensures t.closings == if Close in actions then 1 else 0
    ensures Close in actions ==> ReturnsAtOnce(t, id, ReturnOnClosed(id), FromClosed)
    ensures CancelCall(id) in actions ==> ReturnsAtOnce(t, id, ReturnOnContext(id), FromContext)
    ensures t.calls[id].phase == Returned(FromClosed) ==> Close in actions
    ensures t.calls[id].phase == Returned(FromContext) ==> CancelCall(id) in actions
  {
    ClosedRecordsTheRun(INITIAL, actions, t);
    CallRecordsTheRun(INITIAL, actions, t, id);
    VerdictsAreTruthful(t, id);
  }

  /** A caller waits to enqueue only while the channel holds its 100 calls. */
  lemma EnqueueingHasRoomBelow100(s: State, id: CallId)
    requires id < |s.calls| && s.calls[id].phase.Enqueueing?
    ensures Enabled(s, Enqueue(id)) <==> |s.queue| < 100
  {
  }
}
