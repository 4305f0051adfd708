/**
 The queue calls as straight-line code over the thread's submission store, suspended at each await.
 Each is shown to be one run of the step system in QueueProtocol, so its guarantees apply.
 */
module QueueCalls {
  import opened Wrappers
  import opened QueuedMessages
  import opened QueueProtocol

  function RunEnv(s: State, steps: seq<EnvStep>): State {
    if steps == [] then s
    else EnvNext(RunEnv(s, steps[..|steps| - 1]), steps[|steps| - 1])
  }

  /** Whatever the drain loop does during an await, then the call's own code up to its next one. */
  function Segment(s: State, steps: seq<EnvStep>, now: int): State {
    Resume(RunEnv(s, steps), now)
  }

  function AfterSubmit(s: State, n: Normalized, feedback: Option<string>, env: seq<seq<EnvStep>>, now: int): State
    requires |env| == 4
  {
    Segment(Segment(Segment(Segment(Next(s, BeginSubmit(n, feedback)), env[0], now), env[1], now), env[2], now),
            env[3], now)
  }

  function AfterCancel(s: State, id: nat, clientMessageId: string, env: seq<seq<EnvStep>>, now: int): State
    requires |env| == 3
  {
    Segment(Segment(Segment(Next(s, BeginCancel(id, clientMessageId)), env[0], now), env[1], now), env[2], now)
  }

  class ThreadQueue {
    var store: seq<Submission>
    var transcript: seq<Entry>
    var rpc: Rpc
    var submitted: seq<Message>
    var cancelled: set<string>

    function View(): State
      reads this
    {
      State(store, transcript, rpc, submitted, cancelled)
    }

    constructor ()
      ensures View() == Initial
    {
      store, transcript, rpc, submitted, cancelled := [], [], Idle, [], {};
    }

    /** An await: the drain loop performs `steps` before the call resumes. */
    method Await(steps: seq<EnvStep>)
      modifies this`store, this`transcript
      ensures View() == RunEnv(old(View()), steps)
    {
      for i := 0 to |steps|
        invariant View() == RunEnv(old(View()), steps[..i])
      {
        assert steps[..i + 1][..i] == steps[..i];
        var t := EnvNext(View(), steps[i]);
        store, transcript := t.store, t.transcript;
      }
      assert steps[..|steps|] == steps;
    }

    /** `findWaitingQueuedBatch`: list the submissions, then scan the list once resumed. */
    method FindWaiting(env0: seq<EnvStep>, env1: seq<EnvStep>, now: int) returns (waiting: Option<Waiting>)
      requires rpc.SubmitListing?
      modifies this
      ensures View() == Segment(Segment(old(View()), env0, now), env1, now)
      ensures rpc == SubmitFound(old(rpc.n), old(rpc.feedback), waiting)
    {
      Await(env0);
      var snapshot := store;
      rpc := SubmitListed(rpc.n, rpc.feedback, snapshot);
      Await(env1);
      waiting := FindWaitingQueuedBatch(snapshot, AppliedIds(View()));
      rpc := SubmitFound(rpc.n, rpc.feedback, waiting);
    }

    /** The synchronous stretch of a submit: re-check, then take the waiting batch back or start a new one. */
    method MergeOrStart(n: Normalized, feedback: Option<string>, waiting: Option<Waiting>) returns (rebuilt: Rebuilt)
      requires rpc == SubmitFound(n, feedback, waiting)
      modifies this
      ensures View() == DecideSubmit(old(View()), n, feedback, waiting)
      ensures rpc == SubmitSending(n, rebuilt)
    {
      if waiting.Some? && !IsApplied(waiting.value.items, AppliedIds(View())) {
        rebuilt := AppendToBatch(waiting, n, feedback);
        store := CancelSubmission(store, waiting.value.submissionId);
      } else {
        rebuilt := AppendToBatch(None, n, feedback);
      }
      rpc := SubmitSending(n, rebuilt);
    }

    /** The last stretch: the rebuilt batch is stored. */
    method SendBatch(n: Normalized, rebuilt: Rebuilt, env3: seq<EnvStep>, now: int)
      requires rpc == SubmitSending(n, rebuilt)
      modifies this
      ensures View() == Segment(old(View()), env3, now)
      ensures rpc.Idle?
    {
      Await(env3);
      store := SubmitMessages(store, rebuilt, now);
      submitted, rpc := submitted + [n.message], Idle;
    }

    /** `submitQueuedUserMessageBatch`: merge into the waiting batch, or start a new one. */
    method SubmitBatch(n: Normalized, feedback: Option<string>, env: seq<seq<EnvStep>>, now: int)
      requires rpc.Idle? && |env| == 4
      requires n.item.clientMessageId == n.message.id && FreshId(View(), n.message.id)
      modifies this
      ensures View() == AfterSubmit(old(View()), n, feedback, env, now)
      ensures rpc.Idle?
    {
      rpc := SubmitListing(n, feedback);
      var waiting := FindWaiting(env[0], env[1], now);
      Await(env[2]);
      var rebuilt := MergeOrStart(n, feedback, waiting);
      SendBatch(n, rebuilt, env[3], now);
    }

    /** The synchronous stretch of a cancel: check, take the message out, abort the batch. */
    method CheckAndCancel(id: nat, clientMessageId: string, current: Option<Submission>)
      returns (remaining: Option<Rebuilt>)
      requires rpc == CancelInspected(id, clientMessageId, current)
      modifies this
      ensures View() == DecideCancel(old(View()), id, clientMessageId, current)
      ensures rpc == if remaining.Some? then CancelSending(remaining.value) else Idle
    {
      remaining := None;
      if current.Some? {
        var batch := ParseBatch(current.value.metadata);
        if batch.Some? && FindItem(batch.value.items, clientMessageId) < |batch.value.items| {
          if CanCancel(current.value.status, batch.value.items, AppliedIds(View())) {
            if batch.value.messages.Some? {
              remaining := RemoveFromBatch(batch.value.items, batch.value.messages.value, clientMessageId);
            }
            store := CancelSubmission(store, id);
            cancelled := cancelled + {clientMessageId};
          }
        }
      }
      rpc := if remaining.Some? then CancelSending(remaining.value) else Idle;
    }

    /** `inspectSubmission`, resumed after its await. */
    method Inspect(env0: seq<EnvStep>, now: int) returns (current: Option<Submission>)
      requires rpc.CancelInspecting?
      modifies this
      ensures View() == Segment(old(View()), env0, now)
      ensures rpc == CancelInspected(old(rpc.submissionId), old(rpc.clientMessageId), current)
    {
      Await(env0);
      current := if rpc.submissionId < |store| then Some(store[rpc.submissionId]) else None;
      rpc := CancelInspected(rpc.submissionId, rpc.clientMessageId, current);
    }

    /** Submit the rest of a batch that lost a message, if any is left. */
    method SubmitRemaining(remaining: Option<Rebuilt>, env2: seq<EnvStep>, now: int)
      requires rpc == if remaining.Some? then CancelSending(remaining.value) else Idle
      modifies this
      ensures View() == Segment(old(View()), env2, now)
      ensures rpc.Idle?
    {
      Await(env2);
      if remaining.Some? {
        store := SubmitMessages(store, remaining.value, now);
        rpc := Idle;
      }
    }

    /** `cancelQueuedUserMessageFromBatch`: drop one message by rebuilding its batch without it. */
    method CancelFromBatch(id: nat, clientMessageId: string, env: seq<seq<EnvStep>>, now: int)
      requires rpc.Idle? && |env| == 3
      modifies this
      ensures View() == AfterCancel(old(View()), id, clientMessageId, env, now)
      ensures rpc.Idle?
    {
      rpc := CancelInspecting(id, clientMessageId);
      var current := Inspect(env[0], now);
      Await(env[1]);
      var remaining := CheckAndCancel(id, clientMessageId, current);
      SubmitRemaining(remaining, env[2], now);
    }
  }

  // ---------- calls are runs ----------

  function EnvEvents(steps: seq<EnvStep>): seq<Event> {
    if steps == [] then [] else EnvEvents(steps[..|steps| - 1]) + [Env(steps[|steps| - 1])]
  }

  lemma {:induction false} RunStep(s: State, a: seq<Event>, event: Event)
    ensures Run(s, a + [event]) == Next(Run(s, a), event)
  {
    assert (a + [event])[..|a|] == a;
  }

  lemma {:induction false} EnvExtendsRun(s: State, a: seq<Event>, steps: seq<EnvStep>)
    ensures Run(s, a + EnvEvents(steps)) == RunEnv(Run(s, a), steps)
  {
    if steps == [] {
      assert a + EnvEvents(steps) == a;
    } else {
      var n := |steps| - 1;
      EnvExtendsRun(s, a, steps[..n]);
      RunStep(s, a + EnvEvents(steps[..n]), Env(steps[n]));
      assert a + EnvEvents(steps) == a + EnvEvents(steps[..n]) + [Env(steps[n])];
    }
  }

  /** The events of one awaited segment, after the events already run. */
  function WithSegment(a: seq<Event>, steps: seq<EnvStep>, now: int): seq<Event> {
    a + EnvEvents(steps) + [Advance(now)]
  }

  lemma {:induction false} SegmentExtendsRun(s: State, a: seq<Event>, steps: seq<EnvStep>, now: int)
    ensures Run(s, WithSegment(a, steps, now)) == Segment(Run(s, a), steps, now)
  {
    EnvExtendsRun(s, a, steps);
    RunStep(s, a + EnvEvents(steps), Advance(now));
  }

  /** A submit call from any reachable state leads to a reachable state. */
  lemma {:induction false} SubmitIsRun(past: seq<Event>, n: Normalized, feedback: Option<string>,
        env: seq<seq<EnvStep>>, now: int)
    returns (events: seq<Event>)
    requires |env| == 4
    ensures past <= events
    ensures Run(Initial, events) == AfterSubmit(Run(Initial, past), n, feedback, env, now)
  {
    events := past + [BeginSubmit(n, feedback)];
    RunStep(Initial, past, BeginSubmit(n, feedback));
    SegmentExtendsRun(Initial, events, env[0], now);
    events := WithSegment(events, env[0], now);
    SegmentExtendsRun(Initial, events, env[1], now);
    events := WithSegment(events, env[1], now);
    SegmentExtendsRun(Initial, events, env[2], now);
    events := WithSegment(events, env[2], now);
    SegmentExtendsRun(Initial, events, env[3], now);
    events := WithSegment(events, env[3], now);
  }

  lemma {:induction false} CancelIsRun(past: seq<Event>, id: nat, clientMessageId: string, env: seq<seq<EnvStep>>,
        now: int)
    returns (events: seq<Event>)
    requires |env| == 3
    ensures past <= events
    ensures Run(Initial, events) == AfterCancel(Run(Initial, past), id, clientMessageId, env, now)
  {
    events := past + [BeginCancel(id, clientMessageId)];
    RunStep(Initial, past, BeginCancel(id, clientMessageId));
    SegmentExtendsRun(Initial, events, env[0], now);
    events := WithSegment(events, env[0], now);
    SegmentExtendsRun(Initial, events, env[1], now);
    events := WithSegment(events, env[1], now);
    SegmentExtendsRun(Initial, events, env[2], now);
    events := WithSegment(events, env[2], now);
  }
}
