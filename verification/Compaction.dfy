/**
 Thread compaction (src/agent/compaction.ts:204-224, 237-276, 278-421): a protected head and tail, and
 a ladder of summarizer attempts over widening spans ending in a reset. The summarizer, the token
 estimator and the boundary alignment are whatever the caller supplies.
 */
module Compaction {
  import opened Wrappers
  import opened CheckpointText
  import opened TranscriptBounding

  const CHARS_PER_TOKEN := 4

  datatype Role = User | Assistant | System

  datatype Message = Message(id: string, role: Role, compaction: bool)

  datatype Budget = Budget(tailTokenBudget: nat, minTailMessages: nat, maxSummaryTokens: nat, compactionRetries: nat)

  datatype Answer = Text(text: string) | Threw

  datatype Reason = DidNotShrink | OverBudget

  datatype Failure = SummarizerThrew | EmptySummary | NothingToReset

  datatype Outcome =
    | Shortened(summarizedMessages: nat, summaryTokens: nat)
    | Retried(attempt: nat, reason: Reason)
    | ResetDone(discardedMessages: nat, reason: Reason)
    | Declined(reason: Reason)
    | Noop
    | Failed(failure: Failure)

  datatype Replacement = Replacement(fromId: string, toId: string, summary: string, isReset: bool)

  /** The functions compaction is handed. */
  datatype Tools = Tools(
    estimate: seq<Message> -> nat,
    forward: (seq<Message>, int) -> int,
    backward: (seq<Message>, int) -> int,
    summarize: nat -> Answer,              // the answer to the n-th call
    framing: Framing,
    block: string
  )

  /** Alignment only ever moves in its own direction. */
  ghost predicate Directional(t: Tools, messages: seq<Message>) {
    && (forall i :: t.forward(messages, i) >= i)
    && (forall i :: t.backward(messages, i) <= i)
  }

  /** `slice`, with its clamping, for a start that is not negative. */
  function Slice(messages: seq<Message>, start: nat, end: int): seq<Message> {
    var hi := Min(end, |messages|);
    if start <= hi then messages[start..hi] else []
  }

  function Uncompacted(messages: seq<Message>): seq<Message> {
    if messages == [] then []
    else
      var last := messages[|messages| - 1];
      Uncompacted(messages[..|messages| - 1]) + (if last.compaction then [] else [last])
  }

  function Middle(messages: seq<Message>, start: nat, end: int): seq<Message> {
    Uncompacted(Slice(messages, start, end))
  }

  predicate FirstUserAt(messages: seq<Message>, k: nat) {
    k < |messages| && messages[k].role.User? && forall i :: 0 <= i < k ==> !messages[i].role.User?
  }

  predicate PastFirstUser(messages: seq<Message>, start: int) {
    forall k :: 0 <= k < |messages| && FirstUserAt(messages, k) ==> k < start
  }

  /** One past the first user message, aligned forward; the very beginning when there is none. */
  predicate IsHeadEnd(messages: seq<Message>, t: Tools, start: int) {
    && (forall k :: 0 <= k < |messages| && FirstUserAt(messages, k) ==> start == t.forward(messages, k + 1))
    && ((forall k :: 0 <= k < |messages| ==> !messages[k].role.User?) ==> start == 0)
  }

  method SelectHeadEnd(messages: seq<Message>, t: Tools) returns (start: nat)
    requires Directional(t, messages)
    ensures IsHeadEnd(messages, t, start) && PastFirstUser(messages, start)
    ensures (forall m :: m in messages ==> m.role != User) ==> start == 0
    ensures forall k :: 0 <= k < |messages| && messages[k].role == User
                        && (forall i :: 0 <= i < k ==> messages[i].role != User) ==>
                          start == t.forward(messages, k + 1)
  {
    var firstUser := 0;
    while firstUser < |messages| && !messages[firstUser].role.User?
      invariant firstUser <= |messages| && forall i :: 0 <= i < firstUser ==> !messages[i].role.User?
    {
      firstUser := firstUser + 1;
    }
    if firstUser == |messages| {
      return 0;
    }
    assert messages[firstUser] in messages;
    assert FirstUserAt(messages, firstUser);
    return t.forward(messages, firstUser + 1);
  }

  /** There is one first user message, so one head end. */
  lemma {:induction false} HeadEndUnique(messages: seq<Message>, t: Tools, a: int, b: int)
    requires IsHeadEnd(messages, t, a) && IsHeadEnd(messages, t, b)
    ensures a == b
  {
    if exists k :: 0 <= k < |messages| && messages[k].role.User? {
      var k :| 0 <= k < |messages| && messages[k].role.User?;
      var first := EarliestUser(messages, k);
    }
  }

  lemma {:induction false} EarliestUser(messages: seq<Message>, k: nat) returns (first: nat)
    requires k < |messages| && messages[k].role.User?
    ensures first <= k && FirstUserAt(messages, first)
  {
    if i :| 0 <= i < k && messages[i].role.User? {
      first := EarliestUser(messages, i);
    } else {
      first := k;
    }
  }

  /** Estimated tokens of the messages from `i` on, one message at a time. */
  function TailCost(t: Tools, messages: seq<Message>, i: nat): nat
    requires i <= |messages|
    decreases |messages| - i
  {
    if i == |messages| then 0 else t.estimate([messages[i]]) + TailCost(t, messages, i + 1)
  }

  /** The longest suffix past the head that fits the budget, but never less than the last message. */
  ghost predicate IsTailCut(messages: seq<Message>, headEnd: nat, t: Tools, budget: nat, cut: nat) {
    if headEnd >= |messages| then cut == |messages|
    else
      && headEnd <= cut < |messages|
      && (TailCost(t, messages, cut) <= budget || cut == |messages| - 1)
      && forall i :: headEnd <= i < cut ==> TailCost(t, messages, i) > budget
  }

  method TailLoop(messages: seq<Message>, headEnd: nat, t: Tools, budget: nat) returns (cut: nat)
    ensures IsTailCut(messages, headEnd, t, budget, cut)
    ensures if |messages| <= headEnd then cut == |messages|
            else
              && headEnd <= cut < |messages|
              && (TailCost(t, messages, cut) <= budget || cut == |messages| - 1)
              && forall i :: headEnd <= i < cut ==> TailCost(t, messages, i) > budget
  {
    var n := |messages|;
    var accumulated := 0;
    cut := n;
    var i := n - 1;
    while i >= headEnd
      invariant if headEnd < n then headEnd - 1 <= i else cut == n
      invariant i < n && cut == i + 1
      invariant accumulated == TailCost(t, messages, cut)
      invariant cut < n ==> accumulated <= budget || cut == n - 1
    {
      var tokens := t.estimate([messages[i]]);
      if accumulated + tokens > budget && cut < n {
        assert TailCost(t, messages, i) > budget;
        LongerCostsMore(t, messages, i);
        break;
      }
      accumulated := accumulated + tokens;
      cut := i;
      i := i - 1;
    }
  }

  /** The cost of a tail by a table of running sums from the end: each message adds its own estimate. */
  lemma {:induction false} TailCostIs(t: Tools, messages: seq<Message>, costs: seq<int>, i: nat)
    requires |costs| == |messages| + 1 && costs[|messages|] == 0 && i <= |messages|
    requires forall k :: 0 <= k < |messages| ==> costs[k] == t.estimate([messages[k]]) + costs[k + 1]
    ensures TailCost(t, messages, i) == costs[i]
    decreases |messages| - i
  {
    if i < |messages| {
      TailCostIs(t, messages, costs, i + 1);
    }
  }

  lemma {:induction false} LongerCostsMore(t: Tools, messages: seq<Message>, i: nat)
    requires i <= |messages|
    ensures forall j :: 0 <= j <= i ==> TailCost(t, messages, j) >= TailCost(t, messages, i)
  {
    if i > 0 {
      LongerCostsMore(t, messages, i - 1);
    }
  }

  /** The cut moved back so that the minimum tail is kept, where the head leaves room for one. */
  function Protected(messages: seq<Message>, headEnd: nat, cut: nat, budget: Budget): (c: int)
    ensures headEnd <= |messages| - budget.minTailMessages ==> c <= |messages| - budget.minTailMessages
  {
    var minCut := |messages| - budget.minTailMessages;
    if minCut >= headEnd then Min(cut, minCut) else cut
  }

  /** Where the tail begins: the protected cut aligned backward. */
  ghost predicate IsSpanEnd(messages: seq<Message>, headEnd: nat, t: Tools, budget: Budget, end: int) {
    exists cut: nat :: IsTailCut(messages, headEnd, t, budget.tailTokenBudget, cut)
      && end == t.backward(messages, Protected(messages, headEnd, cut, budget))
  }

  method FindTailCut(messages: seq<Message>, headEnd: nat, t: Tools, budget: Budget) returns (end: int)
    requires Directional(t, messages)
    ensures IsSpanEnd(messages, headEnd, t, budget, end)
    ensures headEnd < end ==> end < |messages|
    ensures headEnd <= |messages| - budget.minTailMessages ==> end <= |messages| - budget.minTailMessages
    ensures exists cut: nat :: IsTailCut(messages, headEnd, t, budget.tailTokenBudget, cut)
              && end == t.backward(messages,
                                   if headEnd <= |messages| - budget.minTailMessages < cut
                                   then |messages| - budget.minTailMessages else cut)
  {
    var cut := TailLoop(messages, headEnd, t, budget.tailTokenBudget);
    var minCut := |messages| - budget.minTailMessages;
    return t.backward(messages, if minCut >= headEnd then Min(cut, minCut) else cut);
  }

  lemma {:induction false} TailCutUnique(messages: seq<Message>, headEnd: nat, t: Tools, budget: nat, a: nat, b: nat)
    requires IsTailCut(messages, headEnd, t, budget, a) && IsTailCut(messages, headEnd, t, budget, b)
    ensures a == b
  {
  }

  lemma {:induction false} SpanEndUnique(messages: seq<Message>, headEnd: nat, t: Tools, budget: Budget, a: int, b: int)
    requires IsSpanEnd(messages, headEnd, t, budget, a) && IsSpanEnd(messages, headEnd, t, budget, b)
    ensures a == b
  {
    var c: nat :| IsTailCut(messages, headEnd, t, budget.tailTokenBudget, c)
                  && a == t.backward(messages, Protected(messages, headEnd, c, budget));
    var d: nat :| IsTailCut(messages, headEnd, t, budget.tailTokenBudget, d)
                  && b == t.backward(messages, Protected(messages, headEnd, d, budget));
    TailCutUnique(messages, headEnd, t, budget.tailTokenBudget, c, d);
  }

  // ---------- spans ----------

  lemma {:induction false} SlicePrefix(messages: seq<Message>, start: nat, a: int, b: int)
    requires a <= b
    ensures Slice(messages, start, a) <= Slice(messages, start, b)
  {
  }

  lemma {:induction false} UncompactedPrefix(a: seq<Message>, b: seq<Message>)
    requires a <= b
    ensures Uncompacted(a) <= Uncompacted(b)
  {
    if |a| < |b| {
      assert a <= b[..|b| - 1];
      UncompactedPrefix(a, b[..|b| - 1]);
    } else {
      assert a == b;
    }
  }

  /** Widening a span never loses what it already summarized. */
  lemma {:induction false} MiddleGrows(messages: seq<Message>, start: nat, a: int, b: int)
    requires a <= b
    ensures Middle(messages, start, a) <= Middle(messages, start, b)
  {
    SlicePrefix(messages, start, a, b);
    UncompactedPrefix(Slice(messages, start, a), Slice(messages, start, b));
  }

  /** Where the first and last message of a non-empty middle sit in the transcript. */
  lemma {:induction false} UncompactedEnds(messages: seq<Message>) returns (i: nat, j: nat)
    requires Uncompacted(messages) != []
    ensures var u := Uncompacted(messages);
            i <= j < |messages| && messages[i] == u[0] && messages[j] == u[|u| - 1]
            && !messages[i].compaction && !messages[j].compaction
  {
    var n := |messages| - 1;
    var front := messages[..n];
    if Uncompacted(front) == [] {
      i, j := n, n;
    } else {
      var k;
      i, k := UncompactedEnds(front);
      j := if messages[n].compaction then k else n;
    }
  }

  lemma {:induction false} MiddleEnds(messages: seq<Message>, start: nat, end: int) returns (i: nat, j: nat)
    requires Middle(messages, start, end) != []
    ensures var m := Middle(messages, start, end);
            start <= i <= j < |messages| && j < end && messages[i] == m[0] && messages[j] == m[|m| - 1]
  {
    var a, b := UncompactedEnds(Slice(messages, start, end));
    i, j := start + a, start + b;
  }

  // ---------- the ladder ----------

  function SummaryTokens(text: string): nat {
    CeilDiv(|text|, CHARS_PER_TOKEN)
  }

  /** Everything up to the current prompt. */
  function ResetEnd(messages: seq<Message>): nat {
    if messages != [] && messages[|messages| - 1].role.User? then |messages| - 1 else |messages|
  }

  function Replacing(span: seq<Message>, summary: string, isReset: bool): Replacement
    requires span != []
  {
    Replacement(span[0].id, span[|span| - 1].id, summary, isReset)
  }

  /** What a run of the ladder left behind. */
  datatype Run = Run(result: Option<Replacement>, outcomes: seq<Outcome>, calls: nat) {
    predicate Ended() {
      outcomes != []
    }

    function Terminal(): Outcome
      requires Ended()
    {
      outcomes[|outcomes| - 1]
    }
  }

  /** One climb of the ladder over spans that start at `start`. */
  datatype Job = Job(messages: seq<Message>, tools: Tools, budget: Budget, allowReset: bool, start: nat) {
    function Span(end: int): seq<Message> {
      Middle(messages, start, end)
    }

    function MaxChars(): nat {
      budget.maxSummaryTokens * CHARS_PER_TOKEN
    }

    /** The widest end a retry may reach, which spares the minimum tail. */
    function MaxEnd(): int {
      Max(start + 1, |messages| - budget.minTailMessages)
    }

    predicate Exhausted(n: nat, end: int) {
      n >= budget.compactionRetries || end >= MaxEnd()
    }

    /** Half the remaining distance into the tail, then forward to a boundary. */
    function Widened(end: int): int
      requires end < MaxEnd()
    {
      tools.forward(messages, Min(MaxEnd(), end + CeilDiv(MaxEnd() - end, 2)))
    }

    /** Why a summary of the span may not stand: nothing when it shrinks its source and fits the budget. */
    function TooLarge(end: int, text: string): Option<Reason> {
      if SummaryTokens(text) >= tools.estimate(Span(end)) then Some(DidNotShrink)
      else if SummaryTokens(text) > budget.maxSummaryTokens then Some(OverBudget)
      else None
    }

    function Checkpoint(text: string): string {
      tools.framing.BuildCheckpointText(text, tools.block)
    }

    function ResetCheckpoint(text: string): string {
      ResetText(tools.framing, text, tools.block, MaxChars())
    }

    /** Call `n`, over the span up to `end`, is retried over the span up to `next`. */
    predicate Retries(n: nat, end: int, outcome: Outcome, next: int) {
      var answer := tools.summarize(n);
      && answer.Text? && Trim(answer.text) != []
      && TooLarge(end, answer.text).Some? && !Exhausted(n, end)
      && outcome == Retried(n + 1, TooLarge(end, answer.text).value)
      && next == Widened(end)
    }

    /** Call `n`, over the span up to `end`, ends the climb with this outcome and result. */
    predicate Finishes(n: nat, end: int, outcome: Outcome, result: Option<Replacement>) {
      var answer := tools.summarize(n);
      if answer.Threw? then outcome == Failed(SummarizerThrew) && result == None
      else if Trim(answer.text) == [] then outcome == Failed(EmptySummary) && result == None
      else if TooLarge(end, answer.text).None? then
        && outcome == Shortened(|Span(end)|, SummaryTokens(answer.text))
        && Span(end) != [] && result == Some(Replacing(Span(end), Checkpoint(answer.text), false))
      else
        var reason := TooLarge(end, answer.text).value;
        && Exhausted(n, end)
        && if !allowReset then outcome == Declined(reason) && result == None
           else
             var discarded := Span(ResetEnd(messages));
             && outcome == ResetDone(|discarded|, reason)
             && discarded != [] && result == Some(Replacing(discarded, ResetCheckpoint(answer.text), true))
    }

    /** Every call but the last is retried over the next end; the last one ends the climb. */
    predicate Climbs(run: Run, end: int, ends: seq<int>) {
      && 0 < run.calls <= budget.compactionRetries + 1
      && |ends| == run.calls && |run.outcomes| == run.calls && ends[0] == end
      && (forall n, m :: 0 <= n < |ends| && 0 <= m < |ends| && m == n + 1 ==>
            Retries(n, ends[n], run.outcomes[n], ends[m]))
      && Finishes(run.calls - 1, ends[run.calls - 1], run.outcomes[run.calls - 1], run.result)
    }
  }

  method Reset(job: Job, summary: string, reason: Reason) returns (result: Option<Replacement>, outcome: Outcome)
    ensures var span := job.Span(ResetEnd(job.messages));
            if span == [] then result.None? && outcome == Failed(NothingToReset)
            else
              && outcome == ResetDone(|span|, reason)
              && result == Some(Replacing(span, job.ResetCheckpoint(summary), true))
  {
    hide BoundText, Uncompacted, Slice, FramingChars, Framing.BuildCheckpointText;
    var n := |job.messages|;
    var endExclusive := if n > 0 && job.messages[n - 1].role.User? then n - 1 else n;
    var span := Middle(job.messages, job.start, endExclusive);
    if span == [] {
      return None, Failed(NothingToReset);
    }
    var allowance := ProseAllowance(job.tools.framing, job.tools.block, job.budget.maxSummaryTokens * CHARS_PER_TOKEN);
    var bounded := BoundText(summary, allowance, 0);
    var checkpoint := job.tools.framing.BuildCheckpointText(bounded, job.tools.block);
    return Some(Replacement(span[0].id, span[|span| - 1].id, checkpoint, true)), ResetDone(|span|, reason);
  }

  /** One attempt: a terminal outcome, or a summary that is too large and why. */
  datatype Step = Finished(outcome: Outcome, result: Option<Replacement>) | Oversized(summary: string, reason: Reason)

  method Attempt(job: Job, n: nat, end: int) returns (step: Step)
    requires job.Span(end) != []
    ensures step.Finished? ==> job.Finishes(n, end, step.outcome, step.result)
    ensures step.Oversized? ==> job.tools.summarize(n) == Text(step.summary) && Trim(step.summary) != []
    ensures step.Oversized? ==> job.TooLarge(end, step.summary) == Some(step.reason)
  {
    var middle := job.Span(end);
    var spanTokens := job.tools.estimate(middle);
    var answer := job.tools.summarize(n);
    if answer.Threw? {
      return Finished(Failed(SummarizerThrew), None);
    }
    var summary := answer.text;
    if Trim(summary) == [] {
      return Finished(Failed(EmptySummary), None);
    }
    var summaryTokens := CeilDiv(|summary|, CHARS_PER_TOKEN);
    if summaryTokens >= spanTokens {
      return Oversized(summary, DidNotShrink);
    }
    if summaryTokens > job.budget.maxSummaryTokens {
      return Oversized(summary, OverBudget);
    }
    var checkpoint := job.tools.framing.BuildCheckpointText(summary, job.tools.block);
    return Finished(Shortened(|middle|, summaryTokens),
                    Some(Replacement(middle[0].id, middle[|middle| - 1].id, checkpoint, false)));
  }

  /** The rung after the last attempt; the span up to the current prompt is never empty there. */
  method LastRung(job: Job, n: nat, end: int, summary: string, reason: Reason)
      returns (outcome: Outcome, result: Option<Replacement>)
    requires job.Span(ResetEnd(job.messages)) != []
    requires job.tools.summarize(n) == Text(summary) && Trim(summary) != []
    requires job.TooLarge(end, summary) == Some(reason) && job.Exhausted(n, end)
    ensures job.Finishes(n, end, outcome, result)
  {
    if !job.allowReset {
      return Declined(reason), None;
    }
    result, outcome := Reset(job, summary, reason);
  }

  /** A wider span still has something to summarize. */
  lemma {:induction false} SpanStays(job: Job, end: int, wider: int)
    requires end <= wider && job.Span(end) != []
    ensures job.Span(wider) != []
  {
    MiddleGrows(job.messages, job.start, end, wider);
  }

  method Widen(job: Job, end: int) returns (wider: int)
    requires Directional(job.tools, job.messages) && end < job.MaxEnd()
    ensures wider == job.Widened(end) && wider > end
  {
    var maxEnd := Max(job.start + 1, |job.messages| - job.budget.minTailMessages);
    wider := job.tools.forward(job.messages, Min(maxEnd, end + CeilDiv(maxEnd - end, 2)));
  }

  /** One rung: the climb ends, or goes on over a strictly wider span. */
  method Rung(job: Job, n: nat, end: int) returns (done: bool, outcome: Outcome, result: Option<Replacement>, next: int)
    requires Directional(job.tools, job.messages) && n <= job.budget.compactionRetries
    requires job.Span(end) != [] && job.Span(ResetEnd(job.messages)) != []
    ensures done ==> job.Finishes(n, end, outcome, result)
    ensures !done ==> job.Retries(n, end, outcome, next) && next > end && n < job.budget.compactionRetries
  {
    next := end;
    var step := Attempt(job, n, end);
    if step.Finished? {
      return true, step.outcome, step.result, next;
    }
    if n < job.budget.compactionRetries && end < job.MaxEnd() {
      next := Widen(job, end);
      return false, Retried(n + 1, step.reason), None, next;
    }
    outcome, result := LastRung(job, n, end, step.summary, step.reason);
    done := true;
  }

  /** The attempts, over spans from `start` to an end that only grows. Falling out of the loop, where
      the source reports exhausted retries, cannot happen. */
  method Ladder(job: Job, end: int) returns (run: Run, ghost ends: seq<int>)
    requires Directional(job.tools, job.messages)
    requires job.start < end < |job.messages| && job.Span(end) != []
    ensures job.Climbs(run, end, ends)
  {
    var attemptEnd := end;
    var attempt := 0;
    var outcomes := [];
    ends := [end];
    SpanStays(job, end, ResetEnd(job.messages));
    while attempt <= job.budget.compactionRetries
      invariant attempt <= job.budget.compactionRetries && end <= attemptEnd
      invariant Climbing(job, end, outcomes, ends, attempt) && ends[attempt] == attemptEnd
      decreases job.budget.compactionRetries - attempt
    {
      SpanStays(job, end, attemptEnd);
      var done, outcome, result, next := Rung(job, attempt, attemptEnd);
      if done {
        ClimbEnds(job, end, outcomes, ends, attempt, outcome, result);
        return Run(result, outcomes + [outcome], attempt + 1), ends;
      }
      ClimbOn(job, end, outcomes, ends, attempt, outcome, next);
      outcomes, ends := outcomes + [outcome], ends + [next];
      attemptEnd, attempt := next, attempt + 1;
    }
    assert false;
  }

  /** The first `n` calls have been retried, and the next span ends at the last of `ends`. */
  predicate Climbing(job: Job, end: int, outcomes: seq<Outcome>, ends: seq<int>, n: nat) {
    && |outcomes| == n && |ends| == n + 1 && ends[0] == end
    && forall k, m :: 0 <= k < |ends| && 0 <= m < |ends| && m == k + 1 ==> job.Retries(k, ends[k], outcomes[k], ends[m])
  }

  lemma {:induction false} ClimbOn(job: Job, end: int, outcomes: seq<Outcome>, ends: seq<int>, n: nat,
        outcome: Outcome, next: int)
    requires Climbing(job, end, outcomes, ends, n) && job.Retries(n, ends[n], outcome, next)
    ensures Climbing(job, end, outcomes + [outcome], ends + [next], n + 1)
  {
  }

  lemma {:induction false} ClimbEnds(job: Job, end: int, outcomes: seq<Outcome>, ends: seq<int>, n: nat,
                                     outcome: Outcome, result: Option<Replacement>)
    requires Climbing(job, end, outcomes, ends, n) && n <= job.budget.compactionRetries
    requires job.Finishes(n, ends[n], outcome, result)
    ensures job.Climbs(Run(result, outcomes + [outcome], n + 1), end, ends)
  {
  }

  // ---------- the whole function ----------

  /** Nothing to compact: too few messages, nothing between head and tail, or nothing left uncompacted there. */
  predicate NothingToCompact(job: Job, end: int) {
    |job.messages| <= 1 + job.budget.minTailMessages || end <= job.start || job.Span(end) == []
  }

  /** What one call of the compaction function does, over the span between head and tail. */
  ghost predicate IsCompaction(job: Job, run: Run, end: int, ends: seq<int>) {
    && IsHeadEnd(job.messages, job.tools, job.start)
    && IsSpanEnd(job.messages, job.start, job.tools, job.budget, end)
    && if NothingToCompact(job, end) then run == Run(None, [Noop], 0) && ends == [] else job.Climbs(run, end, ends)
  }

  method Compact(messages: seq<Message>, budget: Budget, t: Tools, allowReset: bool)
      returns (run: Run, ghost start: nat, ghost end: int, ghost ends: seq<int>)
    requires Directional(t, messages)
    ensures IsCompaction(Job(messages, t, budget, allowReset, start), run, end, ends)
  {
    var headEnd := SelectHeadEnd(messages, t);
    var tailCut := FindTailCut(messages, headEnd, t, budget);
    start, end, ends := headEnd, tailCut, [];
    var job := Job(messages, t, budget, allowReset, headEnd);
    if |messages| <= 1 + budget.minTailMessages {
      return Run(None, [Noop], 0), start, end, ends;
    }
    if tailCut <= headEnd {
      return Run(None, [Noop], 0), start, end, ends;
    }
    if Middle(messages, headEnd, tailCut) == [] {
      return Run(None, [Noop], 0), start, end, ends;
    }
    run, ends := Ladder(job, tailCut);
  }

  // ---------- what a compaction means ----------

  lemma {:induction false} EndsAgree(job: Job, end: int, a: Run, ea: seq<int>, b: Run, eb: seq<int>, n: nat)
    requires job.Climbs(a, end, ea) && job.Climbs(b, end, eb) && n < |ea| && n < |eb|
    ensures ea[n] == eb[n]
  {
    if n > 0 {
      hide Job.Retries, Job.Finishes;
      EndsAgree(job, end, a, ea, b, eb, n - 1);
      RetryDetermined(job, n - 1, ea[n - 1], a.outcomes[n - 1], ea[n], b.outcomes[n - 1], eb[n]);
    }
  }

  /** A call over one span is either retried or ends the climb, never both. */
  lemma {:induction false} RetryOrFinish(job: Job, n: nat, end: int, a: Outcome, next: int, b: Outcome,
        result: Option<Replacement>)
    requires job.Retries(n, end, a, next)
    ensures !job.Finishes(n, end, b, result)
  {
  }

  lemma {:induction false} NoLonger(job: Job, end: int, a: Run, ea: seq<int>, b: Run, eb: seq<int>)
    requires job.Climbs(a, end, ea) && job.Climbs(b, end, eb)
    ensures a.calls >= b.calls
  {
    hide Job.Retries, Job.Finishes;
    var n := a.calls - 1;
    if a.calls < b.calls {
      EndsAgree(job, end, a, ea, b, eb, n);
      RetryOrFinish(job, n, eb[n], b.outcomes[n], eb[n + 1], a.outcomes[n], a.result);
    }
  }

  lemma {:induction false} OutcomesAgree(job: Job, end: int, a: Run, ea: seq<int>, b: Run, eb: seq<int>, n: nat)
    requires job.Climbs(a, end, ea) && job.Climbs(b, end, eb) && a.calls == b.calls && n < a.calls
    ensures a.outcomes[n] == b.outcomes[n] && (n == a.calls - 1 ==> a.result == b.result)
  {
    hide Job.Retries, Job.Finishes;
    EndsAgree(job, end, a, ea, b, eb, n);
    if n < a.calls - 1 {
      RetryDetermined(job, n, ea[n], a.outcomes[n], ea[n + 1], b.outcomes[n], eb[n + 1]);
    } else {
      FinishDetermined(job, n, ea[n], a.outcomes[n], a.result, b.outcomes[n], b.result);
    }
  }

  lemma {:induction false} RetryDetermined(job: Job, n: nat, end: int, a: Outcome, nextA: int, b: Outcome, nextB: int)
    requires job.Retries(n, end, a, nextA) && job.Retries(n, end, b, nextB)
    ensures a == b && nextA == nextB
  {
  }

  lemma {:induction false} FinishDetermined(
    job: Job, n: nat, end: int, a: Outcome, resultA: Option<Replacement>, b: Outcome, resultB: Option<Replacement>)
    requires job.Finishes(n, end, a, resultA) && job.Finishes(n, end, b, resultB)
    ensures a == b && resultA == resultB
  {
    hide Job.TooLarge, Job.Exhausted, Job.Span, Job.Checkpoint, Job.ResetCheckpoint, ResetEnd, Trim;
  }

  lemma {:induction false} ClimbDetermined(job: Job, end: int, a: Run, ea: seq<int>, b: Run, eb: seq<int>)
    requires job.Climbs(a, end, ea) && job.Climbs(b, end, eb)
    ensures a == b
  {
    NoLonger(job, end, a, ea, b, eb);
    NoLonger(job, end, b, eb, a, ea);
    forall n | 0 <= n < a.calls ensures a.outcomes[n] == b.outcomes[n] {
      OutcomesAgree(job, end, a, ea, b, eb, n);
    }
    OutcomesAgree(job, end, a, ea, b, eb, a.calls - 1);
  }

  /** The contract leaves no choice: outcomes, calls and result follow from the inputs. */
  lemma {:induction false} CompactionDetermined(a: Job, b: Job, runA: Run, endA: int, endsA: seq<int>, runB: Run,
        endB: int, endsB: seq<int>)
    requires IsCompaction(a, runA, endA, endsA) && IsCompaction(b, runB, endB, endsB)
    requires a == b.(start := a.start)
    ensures runA == runB && a.start == b.start && endA == endB
  {
    HeadEndUnique(a.messages, a.tools, a.start, b.start);
    SpanEndUnique(a.messages, a.start, a.tools, a.budget, endA, endB);
    if !NothingToCompact(a, endA) {
      ClimbDetermined(a, endA, runA, endsA, runB, endsB);
    }
  }

  /** One terminal outcome after retries only, at most retries plus one calls, and a noop exactly when
      there was nothing to compact. */
  lemma {:induction false} OneTerminal(job: Job, run: Run, end: int, ends: seq<int>)
    requires IsCompaction(job, run, end, ends)
    ensures run.Ended() && run.calls <= job.budget.compactionRetries + 1
    ensures !run.Terminal().Retried? && forall n :: 0 <= n < |run.outcomes| - 1 ==> run.outcomes[n].Retried?
    ensures run.Terminal().Noop? <==> NothingToCompact(job, end)
    ensures run.calls == 0 <==> NothingToCompact(job, end)
  {
    hide Job.Retries, Job.Finishes, NothingToCompact;
    if !NothingToCompact(job, end) {
      forall n | 0 <= n < |run.outcomes| - 1 ensures run.outcomes[n].Retried? {
        RetryShape(job, n, ends[n], run.outcomes[n], ends[n + 1]);
      }
      FinishShape(job, run.calls - 1, ends[run.calls - 1], run.Terminal(), run.result);
    }
  }

  lemma {:induction false} RetryShape(job: Job, n: nat, end: int, outcome: Outcome, next: int)
    requires job.Retries(n, end, outcome, next)
    ensures outcome.Retried?
  {
  }

  /** What the last call leaves, by kind of outcome. */
  lemma {:induction false} FinishShape(job: Job, n: nat, end: int, outcome: Outcome, result: Option<Replacement>)
    requires job.Finishes(n, end, outcome, result)
    ensures outcome.Failed? || outcome.Declined? || outcome.Shortened? || outcome.ResetDone?
    ensures result.None? <==> outcome.Failed? || outcome.Declined?
    ensures result.Some? ==> (result.value.isReset <==> outcome.ResetDone?)
    ensures outcome.ResetDone? ==> job.allowReset
    ensures outcome != Failed(NothingToReset)
  {
    hide Job.TooLarge, Job.Exhausted, Job.Span, Job.Checkpoint, Job.ResetCheckpoint, ResetEnd, Trim;
  }

  /** Each retry's span ends strictly later than the one before. */
  lemma {:induction false} EndsRise(job: Job, run: Run, end: int, ends: seq<int>, n: nat)
    requires Directional(job.tools, job.messages) && job.Climbs(run, end, ends) && n + 1 < |ends|
    ensures ends[n] < ends[n + 1] && ends[n] < job.MaxEnd()
  {
    assert job.Retries(n, ends[n], run.outcomes[n], ends[n + 1]);
  }

  /** The result is null exactly on noop, failed and declined, a reset appears only where it was
      allowed, and the reset itself never comes up empty. */
  lemma {:induction false} ResultFollowsOutcome(job: Job, run: Run, end: int, ends: seq<int>)
    requires IsCompaction(job, run, end, ends)
    ensures run.Ended()
    ensures run.result.None? <==> run.Terminal().Noop? || run.Terminal().Failed? || run.Terminal().Declined?
    ensures run.result.Some? ==> (run.result.value.isReset <==> run.Terminal().ResetDone?)
    ensures run.Terminal().ResetDone? ==> job.allowReset
    ensures run.Terminal() != Failed(NothingToReset)
  {
    hide Job.Retries, Job.Finishes, NothingToCompact;
    if !NothingToCompact(job, end) {
      FinishShape(job, run.calls - 1, ends[run.calls - 1], run.Terminal(), run.result);
    }
  }

  /** The last call and its answer, when it left a result. */
  lemma {:induction false} ResultCall(job: Job, run: Run, end: int, ends: seq<int>) returns (last: int)
    requires IsCompaction(job, run, end, ends) && run.result.Some?
    ensures run.Ended() && run.calls > 0 && job.Finishes(run.calls - 1, last, run.Terminal(), run.result)
    ensures IsHeadEnd(job.messages, job.tools, job.start)
  {
    hide Job.Retries, Job.Finishes, NothingToCompact, IsHeadEnd, IsSpanEnd;
    last := ends[run.calls - 1];
  }

  /** The replaced messages: the last span, or on a reset everything up to the current prompt. */
  lemma {:induction false} ResultSpan(job: Job, n: nat, end: int, outcome: Outcome, result: Option<Replacement>)
    requires job.Finishes(n, end, outcome, result) && result.Some?
    ensures var span := job.Span(if result.value.isReset then ResetEnd(job.messages) else end);
            span != [] && result.value.fromId == span[0].id && result.value.toId == span[|span| - 1].id
  {
    hide Job.TooLarge, Job.Exhausted, Job.Span, Job.Checkpoint, Job.ResetCheckpoint, ResetEnd, Trim;
  }

  /** The checkpoint text: the summary framed, or on a reset bounded first. */
  lemma {:induction false} ResultText(job: Job, n: nat, end: int, outcome: Outcome, result: Option<Replacement>)
    requires job.Finishes(n, end, outcome, result) && result.Some?
    ensures var answer := job.tools.summarize(n);
            && answer.Text?
            && (result.value.isReset ==> result.value.summary == job.ResetCheckpoint(answer.text))
            && (!result.value.isReset ==>
                  result.value.summary == job.Checkpoint(answer.text) && job.TooLarge(end, answer.text).None?)
  {
    hide Job.TooLarge, Job.Exhausted, Job.Span, Job.Checkpoint, Job.ResetCheckpoint, ResetEnd, Trim;
  }

  lemma {:induction false} HeadPastFirstUser(messages: seq<Message>, t: Tools, start: int)
    requires Directional(t, messages) && IsHeadEnd(messages, t, start)
    ensures PastFirstUser(messages, start)
  {
  }

  /** A replaced span never contains the first user message. */
  lemma {:induction false} SpanKeepsFirstUser(job: Job, run: Run, end: int, ends: seq<int>, k: nat)
    returns (i: nat, j: nat)
    requires Directional(job.tools, job.messages) && IsCompaction(job, run, end, ends)
    requires run.result.Some? && k < |job.messages| && FirstUserAt(job.messages, k)
    ensures k < i <= j < |job.messages|
    ensures run.result.value.fromId == job.messages[i].id && run.result.value.toId == job.messages[j].id
  {
    hide IsCompaction, IsHeadEnd, Directional, Middle, ResetEnd, Job.Finishes;
    var last := ResultCall(job, run, end, ends);
    HeadPastFirstUser(job.messages, job.tools, job.start);
    ResultSpan(job, run.calls - 1, last, run.Terminal(), run.result);
    i, j := MiddleEnds(job.messages, job.start, if run.result.value.isReset then ResetEnd(job.messages) else last);
  }

  /** Whichever way the ladder ends with a checkpoint, its size is bounded: a converged summary costs
      the frame plus its budget, and a reset fits the budget whole when the frame leaves room. */
  lemma {:induction false} CheckpointSize(job: Job, run: Run, end: int, ends: seq<int>)
    requires job.tools.framing.Valid() && IsCompaction(job, run, end, ends) && run.result.Some?
    requires forall n :: job.tools.summarize(n).Text? ==> Countable(job.tools.summarize(n).text)
    ensures var frame := FramingChars(job.tools.framing, job.tools.block);
            |run.result.value.summary| <=
            if run.result.value.isReset then Max(job.MaxChars(), frame + 1 + MARKER_MAX_CHARS)
            else frame + job.MaxChars()
  {
    hide IsCompaction, Job.Finishes, Framing.BuildCheckpointText, Countable, FramingChars;
    var last := ResultCall(job, run, end, ends);
    ResultText(job, run.calls - 1, last, run.Terminal(), run.result);
    var text := job.tools.summarize(run.calls - 1).text;
    if run.result.value.isReset {
      ResetTextBound(job.tools.framing, text, job.tools.block, job.MaxChars());
    } else {
      FrameLength(job.tools.framing, text, job.tools.block);
      TokensBoundChars(text, job.budget.maxSummaryTokens);
    }
  }

  // ---------- what a run reports ----------

  /** Messages in a range that are not summaries themselves. */
  function Plain(messages: seq<Message>, lo: nat, hi: nat): nat
    requires hi <= |messages|
  {
    if hi <= lo then 0 else Plain(messages, lo, hi - 1) + (if messages[hi - 1].compaction then 0 else 1)
  }

  lemma {:induction false} SliceNext(messages: seq<Message>, start: nat, hi: nat)
    requires start <= hi < |messages|
    ensures Middle(messages, start, hi + 1)
            == Middle(messages, start, hi) + (if messages[hi].compaction then [] else [messages[hi]])
  {
    var longer := messages[start..hi + 1];
    assert longer[..|longer| - 1] == messages[start..hi];
  }

  lemma {:induction false} EmptySlice(messages: seq<Message>, start: nat)
    requires start <= |messages|
    ensures Middle(messages, start, start) == []
  {
  }

  lemma {:induction false} PlainGrows(messages: seq<Message>, start: nat, k: nat, hi: nat)
    requires start <= k <= hi <= |messages|
    ensures Plain(messages, start, k) <= Plain(messages, start, hi)
  {
    if k < hi {
      PlainGrows(messages, start, k, hi - 1);
    }
  }

  /** A span holds exactly the messages of its range that are not summaries, in order. */
  lemma {:induction false} SpanExact(messages: seq<Message>, start: nat, hi: nat, k: nat)
    requires start <= hi <= |messages|
    ensures |Middle(messages, start, hi)| == Plain(messages, start, hi)
    ensures start <= k < hi && !messages[k].compaction ==>
              Plain(messages, start, k) < Plain(messages, start, hi)
              && Middle(messages, start, hi)[Plain(messages, start, k)] == messages[k]
  {
    hide Middle;
    if hi == start {
      EmptySlice(messages, start);
    } else {
      SpanExact(messages, start, hi - 1, k);
      SliceNext(messages, start, hi - 1);
      if start <= k < hi {
        PlainGrows(messages, start, k, hi - 1);
      }
    }
  }

  /** A summary is let stand only when it costs less than what it replaces and no more than the budget; the
      outcome names what it cost and how many messages it stands for. */
  lemma {:induction false} ShortenedShrinks(job: Job, run: Run, end: int, ends: seq<int>)
    requires IsCompaction(job, run, end, ends) && run.Ended() && run.Terminal().Shortened?
    ensures run.calls > 0 && |ends| == run.calls && job.tools.summarize(run.calls - 1).Text?
    ensures var text := job.tools.summarize(run.calls - 1).text;
            var span := Middle(job.messages, job.start, ends[run.calls - 1]);
            var tokens := run.Terminal().summaryTokens;
            && tokens == (|text| + 3) / 4
            && tokens < job.tools.estimate(span) && tokens <= job.budget.maxSummaryTokens
            && run.Terminal().summarizedMessages == |span| && span != []
            && run.result == Some(Replacement(span[0].id, span[|span| - 1].id,
                                              job.tools.framing.BuildCheckpointText(text, job.tools.block), false))
  {
    hide Middle, Trim, Framing.BuildCheckpointText, IsHeadEnd, IsSpanEnd, Job.Retries;
  }

  predicate TurnedDown(outcome: Outcome) {
    outcome.Retried? || outcome.Declined? || outcome.ResetDone?
  }

  /** A summary is turned down for not shrinking its source exactly when it costs at least as much, and for
      its budget exactly when it costs less but more than the budget. It is then retried exactly while
      attempts are left and the span stops short of the minimum tail. */
  lemma {:induction false} OversizedReason(job: Job, run: Run, end: int, ends: seq<int>, n: nat)
    requires IsCompaction(job, run, end, ends) && n < run.calls && n < |run.outcomes| && TurnedDown(run.outcomes[n])
    ensures n < |ends| && job.tools.summarize(n).Text?
    ensures var tokens := (|job.tools.summarize(n).text| + 3) / 4;
            var cost := job.tools.estimate(Middle(job.messages, job.start, ends[n]));
            && (run.outcomes[n].reason == DidNotShrink <==> tokens >= cost)
            && (run.outcomes[n].reason == OverBudget <==> tokens < cost && tokens > job.budget.maxSummaryTokens)
    ensures run.outcomes[n].Retried? <==>
              && n < job.budget.compactionRetries
              && (ends[n] <= job.start || ends[n] < |job.messages| - job.budget.minTailMessages)
    ensures run.outcomes[n].Retried? ==> run.outcomes[n].attempt == n + 1
    ensures run.outcomes[n].ResetDone? ==> job.allowReset
    ensures run.outcomes[n].Declined? ==> !job.allowReset
  {
    hide Middle, Trim, Framing.BuildCheckpointText, IsHeadEnd, IsSpanEnd;
    if n < run.calls - 1 {
      assert job.Retries(n, ends[n], run.outcomes[n], ends[n + 1]);
    }
  }

  /** The next span ends where the boundary is that follows the middle, rounded up, between the last end and
      the minimum tail. */
  lemma {:induction false} WidensHalfway(job: Job, run: Run, end: int, ends: seq<int>, n: nat) returns (x: int)
    requires IsCompaction(job, run, end, ends) && n + 1 < |ends|
    ensures ends[n + 1] == job.tools.forward(job.messages, x) && ends[n] < x
    ensures var limit := if |job.messages| - job.budget.minTailMessages > job.start
                         then |job.messages| - job.budget.minTailMessages else job.start + 1;
            x - ends[n] == limit - x || x - ends[n] == limit - x + 1
  {
    hide Middle, Trim, Framing.BuildCheckpointText, IsHeadEnd, IsSpanEnd;
    assert job.Retries(n, ends[n], run.outcomes[n], ends[n + 1]);
    x := ends[n] + CeilDiv(job.MaxEnd() - ends[n], 2);
  }

  /** A reset discards all there is between the head and the prompt being answered. */
  lemma {:induction false} ResetSparesPrompt(job: Job, run: Run, end: int, ends: seq<int>)
    returns (stop: nat, span: seq<Message>)
    requires IsCompaction(job, run, end, ends) && run.Ended() && run.Terminal().ResetDone?
    ensures |job.messages| - 1 <= stop <= |job.messages|
    ensures stop < |job.messages| <==> job.messages != [] && job.messages[|job.messages| - 1].role == User
    ensures span == Middle(job.messages, job.start, stop) && span != []
    ensures run.Terminal().discardedMessages == |span|
    ensures run.result.Some? && run.result.value.isReset
    ensures run.result.value.fromId == span[0].id && run.result.value.toId == span[|span| - 1].id
    ensures run.calls > 0 && job.tools.summarize(run.calls - 1).Text?
    ensures run.result.value.summary == ResetText(job.tools.framing, job.tools.summarize(run.calls - 1).text,
                                                  job.tools.block, 4 * job.budget.maxSummaryTokens)
  {
    hide ResetText, Middle, Trim, Framing.BuildCheckpointText, IsHeadEnd, IsSpanEnd, Job.Retries;
    stop := ResetEnd(job.messages);
    span := Middle(job.messages, job.start, stop);
  }

  lemma {:induction false} NothingPlain(messages: seq<Message>)
    ensures Uncompacted(messages) == [] <==> forall m :: m in messages ==> m.compaction
  {
    if messages != [] {
      var front, last := messages[..|messages| - 1], messages[|messages| - 1];
      NothingPlain(front);
      assert forall m :: m in messages <==> m in front || m == last;
    }
  }

  /** There is nothing to compact exactly when the transcript is no longer than the protected messages, the
      tail begins within the head, or only summaries lie in between; no call is made then. */
  lemma {:induction false} NoopExactly(job: Job, run: Run, end: int, ends: seq<int>)
    requires IsCompaction(job, run, end, ends)
    ensures run == Run(None, [Noop], 0) <==>
              || |job.messages| <= 1 + job.budget.minTailMessages || end <= job.start
              || (forall k :: job.start <= k < end && k < |job.messages| ==> job.messages[k].compaction)
  {
    hide Job.Climbs, IsHeadEnd, IsSpanEnd;
    var between := Slice(job.messages, job.start, end);
    NothingPlain(between);
    if job.start < end {
      forall k | job.start <= k < end && k < |job.messages| ensures job.messages[k] in between {
        assert between[k - job.start] == job.messages[k];
      }
      forall m | m in between ensures exists k :: job.start <= k < end && k < |job.messages| && job.messages[k] == m {
        var i :| 0 <= i < |between| && between[i] == m;
        assert job.messages[job.start + i] == m;
      }
    }
    OneTerminal(job, run, end, ends);
  }

  /** It fails exactly when the last call threw or gave nothing but white space. */
  lemma {:induction false} FailsExactly(job: Job, run: Run, end: int, ends: seq<int>)
    requires IsCompaction(job, run, end, ends) && run.calls > 0 && run.Ended()
    ensures run.Terminal() == Failed(SummarizerThrew) <==> job.tools.summarize(run.calls - 1).Threw?
    ensures run.Terminal() == Failed(EmptySummary)
            <==> job.tools.summarize(run.calls - 1).Text? && Trim(job.tools.summarize(run.calls - 1).text) == []
    ensures forall n :: 0 <= n < run.calls - 1 ==>
              job.tools.summarize(n).Text? && Trim(job.tools.summarize(n).text) != []
  {
    hide Trim, Middle, Framing.BuildCheckpointText, ResetText, IsHeadEnd, IsSpanEnd;
    OneTerminal(job, run, end, ends);
    forall n | 0 <= n < run.calls - 1
      ensures job.tools.summarize(n).Text? && Trim(job.tools.summarize(n).text) != []
    {
      assert job.Retries(n, ends[n], run.outcomes[n], ends[n + 1]);
    }
  }

  lemma {:induction false} TokensBoundChars(text: string, limit: nat)
    requires SummaryTokens(text) <= limit
    ensures |text| <= limit * CHARS_PER_TOKEN
  {
  }
}
