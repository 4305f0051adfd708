/**
 The context budget derived from a model's window (src/agent/context-budget.ts), in exact arithmetic.
 */
module ContextBudget {
  import opened Wrappers

  const CHARS_PER_TOKEN := 4
  const LATE_RESERVE_TOKENS := 16_384
  const MAX_SUMMARY_TOKENS := 8_192
  const HEAD_MAX_CHARS := 16_384
  const MAX_RETAINED_MESSAGE_CHARS := 65_536
  const WRITE_CAP_CHARS := 32_768
  const COMPACTION_RETRIES := 1
  const MIN_USEFUL_SUMMARY_TOKENS := 256

  datatype Budget = Budget(
    inputBudgetTokens: int,
    compactAfterTokens: int,
    proactiveInputTokens: int,
    headMaxChars: int,
    tailTokenBudget: int,
    minTailMessages: int,
    maxSummaryTokens: int,
    maxRetainedMessageChars: int,
    maxToolOutputCapChars: int,
    systemPromptReserveTokens: int,
    compactionRetries: int
  )

  datatype Error = SummaryTooSmall | NonConvergent

  function MinReal(a: real, b: real): real {
    if a < b then a else b
  }

  function MaxReal(a: real, b: real): real {
    if a < b then b else a
  }

  function InputBudgetTokens(window: int): int {
    var w := window as real;
    (w - MinReal(32_000.0, w * 0.2) - w * 0.1).Floor
  }

  function LateReserve(input: int): int {
    Min(LATE_RESERVE_TOKENS, (input as real * 0.1).Floor)
  }

  function Derived(window: int): Budget {
    var input := InputBudgetTokens(window);
    var compactAfter := input - LateReserve(input);
    var tail := (window as real * 0.16).Floor;
    var retained := Min(MAX_RETAINED_MESSAGE_CHARS, ((tail * CHARS_PER_TOKEN) as real / 2.0).Floor);
    Budget(
      input,
      compactAfter,
      compactAfter + ((input - compactAfter) as real / 2.0).Floor,
      Min(HEAD_MAX_CHARS, ((input * CHARS_PER_TOKEN) as real * 0.05).Floor),
      tail,
      2,
      Min(MAX_SUMMARY_TOKENS, (compactAfter as real * 0.1).Floor),
      retained,
      Min(WRITE_CAP_CHARS, retained),
      Min(4_000, (input as real * 0.25).Floor),
      COMPACTION_RETRIES)
  }

  /** What compaction can never touch. */
  function EnforcedFloor(b: Budget): real {
    b.headMaxChars as real / 4.0
    + MaxReal(b.tailTokenBudget as real, (b.minTailMessages * b.maxRetainedMessageChars) as real / 4.0)
    + b.maxSummaryTokens as real
    + b.systemPromptReserveTokens as real
  }

  function CheckConverges(b: Budget): Option<Error> {
    if b.maxSummaryTokens < MIN_USEFUL_SUMMARY_TOKENS then Some(SummaryTooSmall)
    else if EnforcedFloor(b) >= b.compactAfterTokens as real then Some(NonConvergent)
    else None
  }

  function ResolveContextBudget(window: int): Result<Budget, Error> {
    var b := Derived(window);
    match CheckConverges(b)
    case Some(e) => Failure(e)
    case None => Success(b)
  }

  // ---------- arithmetic ----------

  /** The input budget is seven tenths of a small window, and nine tenths less the cap of a large one. */
  lemma {:induction false} InputBounds(window: int)
    requires window > 0
    ensures var n := InputBudgetTokens(window);
            if window <= 160_000 then 10 * n <= 7 * window < 10 * n + 10
            else 10 * n <= 9 * window - 320_000 < 10 * n + 10
  {
    var w := window as real;
    if window <= 160_000 {
      assert w - MinReal(32_000.0, w * 0.2) - w * 0.1 == w * 0.7;
    } else {
      assert w - MinReal(32_000.0, w * 0.2) - w * 0.1 == w * 0.9 - 32_000.0;
    }
  }

  lemma {:induction false} LateBounds(input: int)
    requires input >= 0
    ensures LateReserve(input) == Min(LATE_RESERVE_TOKENS, input / 10)
  {
    assert (input as real * 0.1).Floor == input / 10;
  }

  lemma {:induction false} TermBounds(window: int)
    requires window > 0
    ensures var b := Derived(window);
            && 25 * b.tailTokenBudget <= 4 * window < 25 * b.tailTokenBudget + 25
            && 10 * b.maxSummaryTokens <= b.compactAfterTokens
            && (b.maxSummaryTokens == MAX_SUMMARY_TOKENS || b.compactAfterTokens < 10 * b.maxSummaryTokens + 10)
            && 5 * b.headMaxChars <= b.inputBudgetTokens
            && 4 * b.systemPromptReserveTokens <= b.inputBudgetTokens && b.systemPromptReserveTokens <= 4_000
            && b.maxRetainedMessageChars <= 2 * b.tailTokenBudget
            && 2 * (b.proactiveInputTokens - b.compactAfterTokens) <= b.inputBudgetTokens - b.compactAfterTokens
               < 2 * (b.proactiveInputTokens - b.compactAfterTokens) + 2
  {
  }

  lemma {:induction false} InputInWhole(window: int)
    requires window > 0
    ensures InputBudgetTokens(window) == if window <= 160_000 then 7 * window / 10 else 9 * window / 10 - 32_000
    ensures InputBudgetTokens(window) >= 0
  {
    hide InputBudgetTokens;
    InputBounds(window);
  }

  lemma {:induction false} WindowShare(window: int)
    ensures (window as real * 0.16).Floor == 4 * window / 25
  {
  }

  lemma {:induction false} InputShares(input: int)
    ensures (input as real * 0.25).Floor == input / 4 && ((input * 4) as real * 0.05).Floor == input / 5
  {
  }

  lemma {:induction false} Tenth(n: int)
    ensures (n as real * 0.1).Floor == n / 10
  {
  }

  lemma {:induction false} Half(n: int)
    ensures (n as real / 2.0).Floor == n / 2
  {
  }

  /** Every figure of the budget in whole numbers. */
  lemma {:induction false} BudgetInWholeNumbers(window: int)
    requires window > 0
    ensures var b := Derived(window);
            && b.inputBudgetTokens == (if window <= 160_000 then 7 * window / 10 else 9 * window / 10 - 32_000)
            && b.compactAfterTokens == b.inputBudgetTokens - Min(16_384, b.inputBudgetTokens / 10)
            && b.proactiveInputTokens == b.compactAfterTokens + (b.inputBudgetTokens - b.compactAfterTokens) / 2
            && b.headMaxChars == Min(16_384, b.inputBudgetTokens / 5)
            && b.tailTokenBudget == 4 * window / 25 && b.minTailMessages == 2
            && b.maxSummaryTokens == Min(8_192, b.compactAfterTokens / 10)
            && b.maxRetainedMessageChars == Min(65_536, 2 * b.tailTokenBudget)
            && b.maxToolOutputCapChars == Min(32_768, b.maxRetainedMessageChars)
            && b.systemPromptReserveTokens == Min(4_000, b.inputBudgetTokens / 4) && b.compactionRetries == 1
  {
    hide InputBudgetTokens, LateReserve;
    InputInWhole(window);
    var input := InputBudgetTokens(window);
    LateBounds(input);
    var compactAfter := input - LateReserve(input);
    var tail := (window as real * 0.16).Floor;
    WindowShare(window);
    InputShares(input);
    Tenth(compactAfter);
    Half(input - compactAfter);
    Half(4 * tail);
  }

  /** The smallest summary a window leaves room for is useful exactly from 4063 tokens up. */
  lemma {:induction false} SummaryUsefulFrom(window: int)
    requires window > 0
    ensures Derived(window).maxSummaryTokens >= MIN_USEFUL_SUMMARY_TOKENS <==> window >= 4_063
  {
    InputBounds(window);
    var input := InputBudgetTokens(window);
    LateBounds(input);
    TermBounds(window);
  }

  /** Past the summary check the enforced floor is always below the trigger. */
  lemma {:induction false} FloorBelowTrigger(window: int)
    requires window >= 4_063
    ensures EnforcedFloor(Derived(window)) < Derived(window).compactAfterTokens as real
  {
    InputBounds(window);
    LateBounds(InputBudgetTokens(window));
    TermBounds(window);
  }

  /** Every positive window resolves from 4063 tokens up and from nowhere else, and the
      non-convergence error can never be raised. */
  lemma {:induction false} ResolvesExactlyFrom(window: int)
    requires window > 0
    ensures ResolveContextBudget(window).Success? <==> window >= 4_063
    ensures ResolveContextBudget(window).Failure? ==> ResolveContextBudget(window).error == SummaryTooSmall
  {
    SummaryUsefulFrom(window);
    if window >= 4_063 {
      FloorBelowTrigger(window);
    }
  }

  /** The triggers never collide: append, then proactive, then the input budget itself. */
  lemma {:induction false} TriggersOrdered(window: int)
    requires window > 0 && ResolveContextBudget(window).Success?
    ensures var b := ResolveContextBudget(window).value;
            0 < b.compactAfterTokens < b.proactiveInputTokens < b.inputBudgetTokens < window
  {
    ResolvesExactlyFrom(window);
    InputBounds(window);
    LateBounds(InputBudgetTokens(window));
    TermBounds(window);
  }

  /** The messages a tail must keep never cost more than the tail budget, so the floor's tail term is that budget. */
  lemma {:induction false} RetainedFitsTail(window: int)
    requires window > 0
    ensures var b := Derived(window);
            && b.minTailMessages * b.maxRetainedMessageChars <= b.tailTokenBudget * CHARS_PER_TOKEN
            && b.maxToolOutputCapChars <= b.maxRetainedMessageChars
            && EnforcedFloor(b) == b.headMaxChars as real / 4.0 + b.tailTokenBudget as real
                                   + b.maxSummaryTokens as real + b.systemPromptReserveTokens as real
  {
    TermBounds(window);
  }
}
