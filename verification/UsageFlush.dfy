/**
 Turn usage accounting (src/agent/usage-recorder.ts:114-194, src/agent/think-thread-agent.ts:774-824):
 an in-memory accumulator swapped out by overlapping flushes that commit in a chain.
 */
module UsageFlush {
  import opened Wrappers

  /** Provider, model and source joined, as the totals are keyed. */
  type Key = string

  datatype Usage = Usage(input: int, cached: int, cacheWrite: int, output: int, reasoning: int, calls: int)

  const NO_USAGE := Usage(0, 0, 0, 0, 0, 0)

  /** A gauge reading; `step` says which model step it was taken in. */
  datatype Reading = Reading(step: int, contextTokens: int, contextWindow: int, compactAfterTokens: Option<int>)

  datatype Acc = Acc(totals: map<Key, Usage>, context: Option<Reading>)

  function Plus(a: Usage, b: Usage): Usage {
    Usage(a.input + b.input, a.cached + b.cached, a.cacheWrite + b.cacheWrite,
          a.output + b.output, a.reasoning + b.reasoning, a.calls + b.calls)
  }

  function Get(totals: map<Key, Usage>, k: Key): Usage {
    if k in totals then totals[k] else NO_USAGE
  }

  function AddOne(totals: map<Key, Usage>, k: Key, u: Usage): map<Key, Usage> {
    totals[k := Plus(Get(totals, k), u)]
  }

  function AddAll(a: map<Key, Usage>, b: map<Key, Usage>): map<Key, Usage> {
    a + map k | k in b :: Plus(Get(a, k), b[k])
  }

  predicate IsEmpty(acc: Acc) {
    acc.totals == map[] && acc.context.None?
  }

  const EMPTY_ACC := Acc(map[], None)

  datatype Field = Input | Cached | CacheWrite | Output | Reasoning | Calls

  function Amount(u: Usage, f: Field): int {
    match f
    case Input => u.input
    case Cached => u.cached
    case CacheWrite => u.cacheWrite
    case Output => u.output
    case Reasoning => u.reasoning
    case Calls => u.calls
  }

  /** One field of one key's totals, nothing where the key is missing. */
  function Entry(totals: map<Key, Usage>, k: Key, f: Field): int {
    if k in totals then Amount(totals[k], f) else 0
  }

  /** What one model call counts: its own usage, and one call. */
  function Counts(u: Usage, f: Field): int {
    if f.Calls? then 1 else Amount(u, f)
  }

  lemma {:induction false} PlusAmounts(a: Usage, b: Usage, f: Field)
    ensures Amount(Plus(a, b), f) == Amount(a, f) + Amount(b, f)
  {
  }

  lemma {:induction false} GetAmount(totals: map<Key, Usage>, k: Key, f: Field)
    ensures Amount(Get(totals, k), f) == Entry(totals, k, f)
  {
  }

  /** Adding one call's usage raises each field of its key by exactly that, and no other key. */
  lemma {:induction false} AddOneExact(totals: map<Key, Usage>, key: Key, u: Usage, k: Key, f: Field)
    ensures Entry(AddOne(totals, key, u.(calls := 1)), k, f)
            == Entry(totals, k, f) + (if k == key then Counts(u, f) else 0)
    ensures AddOne(totals, key, u.(calls := 1)).Keys == totals.Keys + {key}
  {
  }

  /** Folding totals in adds them field by field. */
  lemma {:induction false} AddAllExact(a: map<Key, Usage>, b: map<Key, Usage>, k: Key, f: Field)
    ensures Entry(AddAll(a, b), k, f) == Entry(a, k, f) + Entry(b, k, f)
    ensures AddAll(a, b).Keys == a.Keys + b.Keys
  {
  }

  /** The other accumulator's totals fold in; its reading counts only where there is none. */
  function Merged(acc: Acc, other: Acc): Acc {
    Acc(AddAll(acc.totals, other.totals), if acc.context.None? then other.context else acc.context)
  }

  class TurnUsageAccumulator {
    var totals: map<Key, Usage>
    var lastContext: Option<Reading>

    function View(): Acc
      reads this
    {
      Acc(totals, lastContext)
    }

    constructor ()
      ensures View() == EMPTY_ACC
    {
      totals, lastContext := map[], None;
    }

    /** One model call's usage; the call itself is counted here. */
    method Add(key: Key, usage: Usage)
      modifies this
      ensures View() == Acc(AddOne(old(totals), key, usage.(calls := 1)), old(lastContext))
      ensures forall f :: Entry(totals, key, f) == Entry(old(totals), key, f) + Counts(usage, f)
      ensures totals.Keys == old(totals).Keys + {key}
      ensures forall k :: k in old(totals) && k != key ==> totals[k] == old(totals)[k]
    {
      var entry := if key in totals then totals[key] else NO_USAGE;
      totals := totals[key := Usage(entry.input + usage.input, entry.cached + usage.cached,
                                    entry.cacheWrite + usage.cacheWrite, entry.output + usage.output,
                                    entry.reasoning + usage.reasoning, entry.calls + 1)];
    }

    method RecordContext(reading: Reading)
      modifies this
      ensures View() == Acc(old(totals), Some(reading))
    {
      lastContext := Some(reading);
    }

    method MergeEntry(k: Key, e: Usage, ghost a: map<Key, Usage>, ghost b: map<Key, Usage>, ghost done: set<Key>)
      requires FoldedIn(totals, a, b, done) && k in b && k !in done && b[k] == e
      modifies this`totals
      ensures FoldedIn(totals, a, b, done + {k})
    {
      FoldNext(totals, a, b, done, k);
      if k !in totals {
        totals := totals[k := e];
      } else {
        totals := totals[k := Plus(totals[k], e)];
      }
    }

    /** Folds every entry of `other` in, one at a time. */
    method MergeTotals(theirs: map<Key, Usage>)
      modifies this`totals
      ensures FoldedIn(totals, old(totals), theirs, theirs.Keys)
    {
      hide FoldedIn;
      ghost var before := totals;
      FoldedNone(before, theirs);
      var rest := theirs.Keys;
      ghost var done: set<Key> := {};
      while rest != {}
        invariant IsRest(rest, done, theirs.Keys)
        invariant FoldedIn(totals, before, theirs, done)
        decreases |rest|
      {
        var k :| k in rest;
        TakeFromRest(rest, done, theirs.Keys, k);
        MergeEntry(k, theirs[k], before, theirs, done);
        rest, done := rest - {k}, done + {k};
      }
      assert done == theirs.Keys;
    }

    method Merge(other: TurnUsageAccumulator)
      modifies this
      ensures View() == Merged(old(View()), old(other.View()))
      ensures forall k, f :: Entry(totals, k, f) == Entry(old(totals), k, f) + Entry(old(other.totals), k, f)
      ensures totals.Keys == old(totals).Keys + old(other.totals).Keys
      ensures lastContext == if old(lastContext).None? then old(other.lastContext) else old(lastContext)
    {
      MergeTotals(other.totals);
      FoldedAll(totals, old(totals), old(other.totals));
      forall k, f ensures Entry(totals, k, f) == Entry(old(totals), k, f) + Entry(old(other.totals), k, f) {
        AddAllExact(old(totals), old(other.totals), k, f);
      }
      if lastContext.None? {
        lastContext := other.lastContext;
      }
    }
  }

  predicate IsRest(rest: set<Key>, done: set<Key>, all: set<Key>) {
    rest <= all && done == all - rest
  }

  lemma {:induction false} TakeFromRest(rest: set<Key>, done: set<Key>, all: set<Key>, k: Key)
    requires IsRest(rest, done, all) && k in rest
    ensures k in all && k !in done && IsRest(rest - {k}, done + {k}, all)
  {
  }

  /** `sum` is `a` with the named entries of `b` folded in. */
  ghost predicate FoldedIn(sum: map<Key, Usage>, a: map<Key, Usage>, b: map<Key, Usage>, done: set<Key>) {
    && done <= b.Keys && sum.Keys == a.Keys + done
    && forall k :: k in sum ==> sum[k] == Folded(a, b, done, k)
  }

  function Folded(a: map<Key, Usage>, b: map<Key, Usage>, done: set<Key>, k: Key): Usage
    requires done <= b.Keys && k in a.Keys + done
  {
    if k in done then Plus(Get(a, k), b[k]) else a[k]
  }

  lemma {:induction false} FoldedNone(a: map<Key, Usage>, b: map<Key, Usage>)
    ensures FoldedIn(a, a, b, {})
  {
  }

  lemma {:induction false} FoldNext(sum: map<Key, Usage>, a: map<Key, Usage>, b: map<Key, Usage>, done: set<Key>,
        k: Key)
    requires FoldedIn(sum, a, b, done) && k in b && k !in done
    ensures FoldedIn(sum[k := if k in sum then Plus(sum[k], b[k]) else b[k]], a, b, done + {k})
  {
  }

  lemma {:induction false} FoldedAll(sum: map<Key, Usage>, a: map<Key, Usage>, b: map<Key, Usage>)
    requires FoldedIn(sum, a, b, b.Keys)
    ensures sum == AddAll(a, b)
  {
  }

  // ---------- overlapping flushes ----------

  /** A snapshot a flush owns; `serial` numbers the flushes in the order they were started. */
  datatype Snapshot = Snapshot(serial: int, acc: Acc)

  datatype State = State(
    live: Acc,
    chain: seq<Snapshot>,            // started and not yet settled, in order
    persisted: map<Key, Usage>,
    gauge: Option<Reading>,          // the stored gauge
    recorded: map<Key, Usage>,       // everything ever recorded
    steps: int,
    started: int,
    committed: seq<int>              // serials of the flushes that committed
  )

  datatype Event =
    | StepFinish(key: Key, usage: Usage)
    | StepWithGauge(key: Key, usage: Usage, contextTokens: int, contextWindow: int, compactAfter: Option<int>)
    | Flush
    | Settle(ok: bool)

  const START := State(EMPTY_ACC, [], map[], None, map[], 0, 0, [])

  /** One finished step: its usage is added as one call, whatever the call count it came with. */
  function Recorded(s: State, key: Key, usage: Usage, context: Option<Reading>): State {
    s.(live := Acc(AddOne(s.live.totals, key, usage.(calls := 1)), context),
       recorded := AddOne(s.recorded, key, usage.(calls := 1)), steps := s.steps + 1)
  }

  function FlushStep(s: State): State {
    if IsEmpty(s.live) then s
    else s.(live := EMPTY_ACC, chain := s.chain + [Snapshot(s.started, s.live)], started := s.started + 1)
  }

  /** The chain settles its oldest flush: its batch commits whole, or fails whole and goes back. */
  function SettleStep(s: State, ok: bool): State
    requires s.chain != []
  {
    var first := s.chain[0];
    if ok then
      s.(chain := s.chain[1..], persisted := AddAll(s.persisted, first.acc.totals),
         gauge := if first.acc.context.Some? then first.acc.context else s.gauge,
         committed := s.committed + [first.serial])
    else s.(chain := s.chain[1..], live := Merged(s.live, first.acc))
  }

  function Next(s: State, e: Event): State {
    match e
    case StepFinish(key, usage) => Recorded(s, key, usage, s.live.context)
    case StepWithGauge(key, usage, tokens, window, compactAfter) =>
      Recorded(s, key, usage, Some(Reading(s.steps, tokens, window, compactAfter)))
    case Flush => FlushStep(s)
    case Settle(ok) => if s.chain == [] then s else SettleStep(s, ok)
  }

  function Run(s: State, events: seq<Event>): State {
    if events == [] then s else Next(Run(s, events[..|events| - 1]), events[|events| - 1])
  }

  function InFlight(chain: seq<Snapshot>, k: Key): Usage {
    if chain == [] then NO_USAGE else Plus(Get(chain[0].acc.totals, k), InFlight(chain[1..], k))
  }

  /** Usage of one key that is live, in flight or stored. */
  function Accounted(s: State, k: Key): Usage {
    Plus(Plus(Get(s.live.totals, k), InFlight(s.chain, k)), Get(s.persisted, k))
  }

  lemma {:induction false} InFlightSnoc(chain: seq<Snapshot>, last: Snapshot, k: Key)
    ensures InFlight(chain + [last], k) == Plus(InFlight(chain, k), Get(last.acc.totals, k))
  {
    var whole := chain + [last];
    if chain == [] {
      assert whole[1..] == [];
    } else {
      assert whole[1..] == chain[1..] + [last];
      InFlightSnoc(chain[1..], last, k);
    }
  }

  lemma {:induction false} AddAllGet(a: map<Key, Usage>, b: map<Key, Usage>, k: Key)
    ensures Get(AddAll(a, b), k) == Plus(Get(a, k), Get(b, k))
  {
  }

  lemma {:induction false} RecordConserves(s: State, key: Key, usage: Usage, context: Option<Reading>, k: Key)
    requires Accounted(s, k) == Get(s.recorded, k)
    ensures Accounted(Recorded(s, key, usage, context), k) == Get(Recorded(s, key, usage, context).recorded, k)
  {
    SumGrows(s.live.totals, InFlight(s.chain, k), Get(s.persisted, k), s.recorded, key, usage.(calls := 1), k);
  }

  lemma {:induction false} SumGrows(live: map<Key, Usage>, flight: Usage, stored: Usage, recorded: map<Key, Usage>,
                                    key: Key, usage: Usage, k: Key)
    requires Plus(Plus(Get(live, k), flight), stored) == Get(recorded, k)
    ensures Plus(Plus(Get(AddOne(live, key, usage), k), flight), stored) == Get(AddOne(recorded, key, usage), k)
  {
  }

  lemma {:induction false} FlushConserves(s: State, k: Key)
    ensures Accounted(FlushStep(s), k) == Accounted(s, k)
  {
    InFlightSnoc(s.chain, Snapshot(s.started, s.live), k);
  }

  lemma {:induction false} SettleConserves(s: State, ok: bool, k: Key)
    requires s.chain != []
    ensures Accounted(SettleStep(s, ok), k) == Accounted(s, k)
  {
    SumMoves(s.live.totals, s.chain[0].acc.totals, InFlight(s.chain[1..], k), s.persisted, k);
  }

  /** A settled snapshot moves to the store or back to the accumulator. */
  lemma {:induction false} SumMoves(live: map<Key, Usage>, first: map<Key, Usage>, flight: Usage,
                                    stored: map<Key, Usage>, k: Key)
    ensures Plus(Plus(Get(live, k), flight), Get(AddAll(stored, first), k))
            == Plus(Plus(Get(live, k), Plus(Get(first, k), flight)), Get(stored, k))
    ensures Plus(Plus(Get(AddAll(live, first), k), flight), Get(stored, k))
            == Plus(Plus(Get(live, k), Plus(Get(first, k), flight)), Get(stored, k))
  {
    hide AddAll, Get;
    AddAllGet(stored, first, k);
    AddAllGet(live, first, k);
  }

  lemma {:induction false} FlushRecordsNothing(s: State)
    ensures FlushStep(s).recorded == s.recorded
  {
  }

  lemma {:induction false} SettleRecordsNothing(s: State, ok: bool)
    requires s.chain != []
    ensures SettleStep(s, ok).recorded == s.recorded
  {
  }

  lemma {:induction false} StepConserves(s: State, e: Event, k: Key)
    requires Accounted(s, k) == Get(s.recorded, k)
    ensures Accounted(Next(s, e), k) == Get(Next(s, e).recorded, k)
  {
    hide Accounted, Recorded, FlushStep, SettleStep, Get;
    match e
    case StepFinish(key, usage) => RecordConserves(s, key, usage, s.live.context, k);
    case StepWithGauge(key, usage, tokens, window, compactAfter) =>
      RecordConserves(s, key, usage, Some(Reading(s.steps, tokens, window, compactAfter)), k);
    case Flush =>
      FlushRecordsNothing(s);
      FlushConserves(s, k);
    case Settle(ok) =>
      if s.chain != [] {
        SettleRecordsNothing(s, ok);
        SettleConserves(s, ok, k);
      }
  }

  /** However steps, overlapping flushes and failed batches interleave, all usage recorded is live, in
      flight or stored, each unit once. */
  lemma {:induction false} UsageConserved(events: seq<Event>, k: Key)
    ensures Accounted(Run(START, events), k) == Get(Run(START, events).recorded, k)
  {
    if events != [] {
      UsageConserved(events[..|events| - 1], k);
      StepConserves(Run(START, events[..|events| - 1]), events[|events| - 1], k);
    }
  }

  // ---------- the sum over the events ----------

  /** What one event reports of a field of a key. */
  function Reports(e: Event, k: Key, f: Field): int {
    match e
    case StepFinish(key, usage) => if key == k then Counts(usage, f) else 0
    case StepWithGauge(key, usage, _, _, _) => if key == k then Counts(usage, f) else 0
    case _ => 0
  }

  function Reported(events: seq<Event>, k: Key, f: Field): int {
    if events == [] then 0 else Reported(events[..|events| - 1], k, f) + Reports(events[|events| - 1], k, f)
  }

  function ChainEntry(chain: seq<Snapshot>, k: Key, f: Field): int {
    if chain == [] then 0 else Entry(chain[0].acc.totals, k, f) + ChainEntry(chain[1..], k, f)
  }

  lemma {:induction false} InFlightAmount(chain: seq<Snapshot>, k: Key, f: Field)
    ensures Amount(InFlight(chain, k), f) == ChainEntry(chain, k, f)
  {
    if chain != [] {
      InFlightAmount(chain[1..], k, f);
      PlusAmounts(Get(chain[0].acc.totals, k), InFlight(chain[1..], k), f);
    }
  }

  lemma {:induction false} RecordedIsReported(events: seq<Event>, k: Key, f: Field)
    ensures Entry(Run(START, events).recorded, k, f) == Reported(events, k, f)
  {
    if events != [] {
      hide Entry, Counts, AddOne;
      var s, e := Run(START, events[..|events| - 1]), events[|events| - 1];
      RecordedIsReported(events[..|events| - 1], k, f);
      match e
      case StepFinish(key, usage) => AddOneExact(s.recorded, key, usage, k, f);
      case StepWithGauge(key, usage, _, _, _) => AddOneExact(s.recorded, key, usage, k, f);
      case _ =>
    }
  }

  /** In every reachable state, field by field, what is live, in flight and stored of a key sums up to what the
      finished steps reported of it: each step's usage once, and one call for each. */
  lemma {:induction false} UsageIsReported(events: seq<Event>, k: Key, f: Field)
    ensures var s := Run(START, events);
            Entry(s.live.totals, k, f) + ChainEntry(s.chain, k, f) + Entry(s.persisted, k, f) == Reported(events, k, f)
  {
    var s := Run(START, events);
    UsageConserved(events, k);
    RecordedIsReported(events, k, f);
    SumAmounts(s, k, f);
  }

  lemma {:induction false} SumAmounts(s: State, k: Key, f: Field)
    ensures Amount(Accounted(s, k), f)
            == Entry(s.live.totals, k, f) + ChainEntry(s.chain, k, f) + Entry(s.persisted, k, f)
    ensures Amount(Get(s.recorded, k), f) == Entry(s.recorded, k, f)
  {
    hide Plus, Amount, Get, InFlight, ChainEntry, Entry;
    PlusAmounts(Plus(Get(s.live.totals, k), InFlight(s.chain, k)), Get(s.persisted, k), f);
    PlusAmounts(Get(s.live.totals, k), InFlight(s.chain, k), f);
    InFlightAmount(s.chain, k, f);
    GetAmount(s.live.totals, k, f);
    GetAmount(s.persisted, k, f);
    GetAmount(s.recorded, k, f);
  }

  /** A flush takes everything live into one snapshot, and does not happen when nothing is. */
  lemma {:induction false} FlushTakesAll(s: State)
    ensures s.live.totals == map[] && s.live.context == None ==> Next(s, Flush) == s
    ensures s.live.totals != map[] || s.live.context != None ==>
              && Next(s, Flush).live == Acc(map[], None)
              && |Next(s, Flush).chain| == |s.chain| + 1 && Next(s, Flush).chain[..|s.chain|] == s.chain
              && Next(s, Flush).chain[|s.chain|] == Snapshot(s.started, s.live)
              && Next(s, Flush).started == s.started + 1
  {
  }

  /** A batch commits or fails whole: its usage is stored and its reading, if it has one, becomes the gauge; or
      both go back behind what is live by then. */
  lemma {:induction false} SettlesWhole(s: State, k: Key, f: Field)
    requires s.chain != []
    ensures var first, t := s.chain[0].acc, Next(s, Settle(true));
            && t.chain == s.chain[1..] && t.live == s.live
            && Entry(t.persisted, k, f) == Entry(s.persisted, k, f) + Entry(first.totals, k, f)
            && t.gauge == (if first.context.Some? then first.context else s.gauge)
            && t.committed == s.committed + [s.chain[0].serial]
    ensures var first, t := s.chain[0].acc, Next(s, Settle(false));
            && t.chain == s.chain[1..] && t.persisted == s.persisted && t.gauge == s.gauge
            && Entry(t.live.totals, k, f) == Entry(s.live.totals, k, f) + Entry(first.totals, k, f)
            && t.live.context == (if s.live.context.Some? then s.live.context else first.context)
            && t.committed == s.committed
  {
    hide Entry, AddAll;
    AddAllExact(s.persisted, s.chain[0].acc.totals, k, f);
    AddAllExact(s.live.totals, s.chain[0].acc.totals, k, f);
  }

  // ---------- where readings come from ----------

  function StepsIn(events: seq<Event>): nat {
    if events == [] then 0
    else
      var last := events[|events| - 1];
      StepsIn(events[..|events| - 1]) + (if last.StepFinish? || last.StepWithGauge? then 1 else 0)
  }

  /** The reading is the one that step's event carried. */
  predicate Carried(events: seq<Event>, r: Reading) {
    exists i :: 0 <= i < |events| && CarriedAt(events, r, i)
  }

  predicate CarriedAt(events: seq<Event>, r: Reading, i: nat)
    requires i < |events|
  {
    && events[i].StepWithGauge? && events[i].contextTokens == r.contextTokens
    && events[i].contextWindow == r.contextWindow && events[i].compactAfter == r.compactAfterTokens
    && StepsIn(events[..i]) == r.step
  }

  predicate AllCarried(events: seq<Event>, s: State) {
    && s.steps == StepsIn(events)
    && (s.gauge.Some? ==> Carried(events, s.gauge.value))
    && (s.live.context.Some? ==> Carried(events, s.live.context.value))
    && forall i :: 0 <= i < |s.chain| && s.chain[i].acc.context.Some? ==> Carried(events, s.chain[i].acc.context.value)
  }

  lemma {:induction false} CarriedStays(front: seq<Event>, e: Event, r: Reading)
    requires Carried(front, r)
    ensures Carried(front + [e], r)
  {
    var i: nat :| i < |front| && CarriedAt(front, r, i);
    assert (front + [e])[..i] == front[..i] && (front + [e])[i] == front[i];
    assert CarriedAt(front + [e], r, i);
  }

  lemma {:induction false} NewCarried(front: seq<Event>, e: Event)
    requires e.StepWithGauge?
    ensures Carried(front + [e], Reading(StepsIn(front), e.contextTokens, e.contextWindow, e.compactAfter))
  {
    assert (front + [e])[..|front|] == front && (front + [e])[|front|] == e;
    assert CarriedAt(front + [e], Reading(StepsIn(front), e.contextTokens, e.contextWindow, e.compactAfter), |front|);
  }

  lemma {:induction false} AllStay(front: seq<Event>, e: Event, s: State)
    requires AllCarried(front, s)
    ensures s.gauge.Some? ==> Carried(front + [e], s.gauge.value)
    ensures s.live.context.Some? ==> Carried(front + [e], s.live.context.value)
    ensures forall i :: 0 <= i < |s.chain| && s.chain[i].acc.context.Some? ==>
              Carried(front + [e], s.chain[i].acc.context.value)
  {
    if s.gauge.Some? {
      CarriedStays(front, e, s.gauge.value);
    }
    if s.live.context.Some? {
      CarriedStays(front, e, s.live.context.value);
    }
    forall i | 0 <= i < |s.chain| && s.chain[i].acc.context.Some?
      ensures Carried(front + [e], s.chain[i].acc.context.value)
    {
      CarriedStays(front, e, s.chain[i].acc.context.value);
    }
  }

  /** Every reading, stored, in flight or live, is exactly what the step it names reported. */
  lemma {:induction false} ReadingsAreReported(events: seq<Event>)
    ensures AllCarried(events, Run(START, events))
  {
    if events != [] {
      var front, e := events[..|events| - 1], events[|events| - 1];
      assert events == front + [e];
      ReadingsAreReported(front);
      StepCarries(front, e, Run(START, front));
    }
  }

  lemma {:induction false} StepCarries(front: seq<Event>, e: Event, s: State)
    requires AllCarried(front, s)
    ensures AllCarried(front + [e], Next(s, e))
  {
    assert (front + [e])[..|front|] == front;
    match e
    case Flush => FlushCarries(front, s);
    case Settle(ok) => SettleCarries(front, s, ok);
    case StepFinish(_, _) =>
      hide Carried, AddOne;
      AllStay(front, e, s);
    case StepWithGauge(_, _, _, _, _) =>
      hide Carried, AddOne;
      AllStay(front, e, s);
      NewCarried(front, e);
  }

  lemma {:induction false} FlushCarries(front: seq<Event>, s: State)
    requires AllCarried(front, s)
    ensures AllCarried(front + [Flush], FlushStep(s))
  {
    hide Carried, IsEmpty;
    AllStay(front, Flush, s);
    assert (front + [Flush])[..|front|] == front;
  }

  lemma {:induction false} SettleCarries(front: seq<Event>, s: State, ok: bool)
    requires AllCarried(front, s)
    ensures AllCarried(front + [Settle(ok)], if s.chain == [] then s else SettleStep(s, ok))
  {
    hide Carried, AddAll;
    AllStay(front, Settle(ok), s);
    assert (front + [Settle(ok)])[..|front|] == front;
  }

  // ---------- order ----------

  predicate Rising(xs: seq<int>) {
    forall i, j :: 0 <= i < j < |xs| ==> xs[i] < xs[j]
  }

  predicate ChainInOrder(s: State) {
    && (forall i, j :: 0 <= i < j < |s.chain| ==> s.chain[i].serial < s.chain[j].serial)
    && (forall i :: 0 <= i < |s.chain| ==> s.chain[i].serial < s.started)
    && Rising(s.committed)
    && (forall i, j :: 0 <= i < |s.committed| && 0 <= j < |s.chain| ==> s.committed[i] < s.chain[j].serial)
    && (forall i :: 0 <= i < |s.committed| ==> s.committed[i] < s.started)
  }

  lemma {:induction false} SettleKeepsOrder(s: State, ok: bool)
    requires ChainInOrder(s) && s.chain != []
    ensures ChainInOrder(SettleStep(s, ok))
  {
    var t := SettleStep(s, ok);
    assert forall j :: 0 <= j < |t.chain| ==> t.chain[j] == s.chain[j + 1];
    assert forall j :: 0 <= j < |t.chain| ==> s.chain[0].serial < t.chain[j].serial;
  }

  lemma {:induction false} FlushKeepsOrder(s: State)
    requires ChainInOrder(s)
    ensures ChainInOrder(FlushStep(s))
  {
  }

  lemma {:induction false} RecordKeepsOrder(s: State, key: Key, usage: Usage, context: Option<Reading>)
    requires ChainInOrder(s)
    ensures ChainInOrder(Recorded(s, key, usage, context))
  {
  }

  lemma {:induction false} StepKeepsOrder(s: State, e: Event)
    requires ChainInOrder(s)
    ensures ChainInOrder(Next(s, e))
  {
    hide ChainInOrder, Recorded, FlushStep, SettleStep;
    match e
    case StepFinish(key, usage) => RecordKeepsOrder(s, key, usage, s.live.context);
    case StepWithGauge(key, usage, tokens, window, compactAfter) =>
      RecordKeepsOrder(s, key, usage, Some(Reading(s.steps, tokens, window, compactAfter)));
    case Flush => FlushKeepsOrder(s);
    case Settle(ok) =>
      if s.chain != [] {
        SettleKeepsOrder(s, ok);
      }
  }

  /** Flushes commit in the order they were started. */
  lemma {:induction false} CommitsInStartOrder(events: seq<Event>)
    ensures ChainInOrder(Run(START, events)) && Rising(Run(START, events).committed)
  {
    if events != [] {
      CommitsInStartOrder(events[..|events| - 1]);
      StepKeepsOrder(Run(START, events[..|events| - 1]), events[|events| - 1]);
    }
  }

  // ---------- the gauge ----------

  function OptStep(reading: Option<Reading>): seq<int> {
    if reading.Some? then [reading.value.step] else []
  }

  function ChainSteps(chain: seq<Snapshot>): seq<int> {
    if chain == [] then [] else OptStep(chain[0].acc.context) + ChainSteps(chain[1..])
  }

  /** The stored gauge, the readings on their way to it in flush order, and the live one. */
  function GaugeSteps(s: State): seq<int> {
    OptStep(s.gauge) + (ChainSteps(s.chain) + OptStep(s.live.context))
  }

  /** Newer readings lie behind older ones, so the stored gauge can only move forward. */
  predicate GaugeOrdered(s: State) {
    Rising(GaugeSteps(s)) && Below(GaugeSteps(s), s.steps)
  }

  predicate Below(xs: seq<int>, n: int) {
    forall i :: 0 <= i < |xs| ==> xs[i] < n
  }

  /** A failing flush holds a reading, nothing newer is live, yet a flush behind it carries one. */
  predicate StaleReturn(s: State) {
    s.chain != [] && s.chain[0].acc.context.Some? && s.live.context.None? && ChainSteps(s.chain[1..]) != []
  }

  lemma {:induction false} ChainStepsSnoc(chain: seq<Snapshot>, last: Snapshot)
    ensures ChainSteps(chain + [last]) == ChainSteps(chain) + OptStep(last.acc.context)
  {
    var whole := chain + [last];
    if chain == [] {
      assert whole[1..] == [];
    } else {
      assert whole[1..] == chain[1..] + [last];
      ChainStepsSnoc(chain[1..], last);
    }
  }

  lemma {:induction false} RisingWithout(a: seq<int>, b: seq<int>, c: seq<int>)
    requires Rising(a + (b + c))
    ensures Rising(a + c)
  {
    var whole, rest := a + (b + c), a + c;
    forall i, j | 0 <= i < j < |rest| ensures rest[i] < rest[j] {
      var k, l := if i < |a| then i else i + |b|, if j < |a| then j else j + |b|;
      assert whole[k] == rest[i] && whole[l] == rest[j];
    }
  }

  lemma {:induction false} RisingThen(a: seq<int>, n: int)
    requires Rising(a) && Below(a, n)
    ensures Rising(a + [n])
  {
  }

  lemma {:induction false} BelowParts(a: seq<int>, b: seq<int>, n: int)
    ensures Below(a + b, n) <==> Below(a, n) && Below(b, n)
  {
    assert forall i :: 0 <= i < |a| ==> (a + b)[i] == a[i];
    assert forall i :: 0 <= i < |b| ==> (a + b)[|a| + i] == b[i];
  }

  lemma {:induction false} NewestReplaces(a: seq<int>, b: seq<int>, n: int)
    requires Rising(a + b) && Below(a + b, n)
    ensures Rising(a + [n]) && Below(a + [n], n + 1)
  {
    BelowParts(a, b, n);
    assert a + (b + []) == a + b && a + [] == a;
    RisingWithout(a, b, []);
    RisingThen(a, n);
  }

  lemma {:induction false} RecordedSteps(s: State, key: Key, usage: Usage, reading: Reading)
    ensures GaugeSteps(s) == OptStep(s.gauge) + ChainSteps(s.chain) + OptStep(s.live.context)
    ensures GaugeSteps(Recorded(s, key, usage, Some(reading)))
            == OptStep(s.gauge) + ChainSteps(s.chain) + [reading.step]
  {
  }

  lemma {:induction false} RecordKeepsGauge(s: State, key: Key, usage: Usage, reading: Reading)
    requires GaugeOrdered(s) && reading.step == s.steps
    ensures GaugeOrdered(Recorded(s, key, usage, Some(reading)))
  {
    RecordedSteps(s, key, usage, reading);
    NewestReplaces(OptStep(s.gauge) + ChainSteps(s.chain), OptStep(s.live.context), s.steps);
  }

  lemma {:induction false} FlushKeepsGauge(s: State)
    ensures GaugeSteps(FlushStep(s)) == GaugeSteps(s)
  {
    if !IsEmpty(s.live) {
      ChainStepsSnoc(s.chain, Snapshot(s.started, s.live));
    }
  }

  lemma {:induction false} OldestLeaves(g: seq<int>, rest: seq<int>, n: int)
    requires Rising(g + rest) && Below(g + rest, n)
    ensures Rising(rest) && Below(rest, n)
  {
    assert [] + (g + rest) == g + rest && [] + rest == rest;
    RisingWithout([], g, rest);
    BelowParts(g, rest, n);
  }

  lemma {:induction false} CommittedSteps(s: State)
    requires s.chain != []
    ensures var g, h, rest := OptStep(s.gauge), OptStep(s.chain[0].acc.context), ChainSteps(s.chain[1..])
            + OptStep(s.live.context);
            && GaugeSteps(s) == g + (h + rest)
            && GaugeSteps(SettleStep(s, true)) == (if h == [] then g else h) + rest
  {
  }

  lemma {:induction false} CommitKeepsGauge(s: State)
    requires GaugeOrdered(s) && s.chain != []
    ensures GaugeOrdered(SettleStep(s, true))
  {
    var g, h, rest := OptStep(s.gauge), OptStep(s.chain[0].acc.context), ChainSteps(s.chain[1..])
      + OptStep(s.live.context);
    CommittedSteps(s);
    if h == [] {
      assert h + rest == rest;
    } else {
      OldestLeaves(g, h + rest, s.steps);
    }
  }

  lemma {:induction false} FailedSteps(s: State)
    requires s.chain != []
    ensures var g, h, r, l := OptStep(s.gauge), OptStep(s.chain[0].acc.context), ChainSteps(s.chain[1..]),
            OptStep(s.live.context);
            && GaugeSteps(s) == g + (h + (r + l))
            && GaugeSteps(SettleStep(s, false)) == g + (r + if l == [] then h else l)
  {
    var h, r, l := OptStep(s.chain[0].acc.context), ChainSteps(s.chain[1..]), OptStep(s.live.context);
    assert h + r + l == h + (r + l);
  }

  lemma {:induction false} ReturnedOrder(g: seq<int>, h: seq<int>, r: seq<int>, l: seq<int>, n: int)
    requires Rising(g + (h + (r + l))) && Below(g + (h + (r + l)), n)
    ensures var after := g + (r + if l == [] then h else l);
            Rising(after) && Below(after, n) <==> !(h != [] && l == [] && r != [])
  {
    if l != [] {
      RisingWithout(g, h, r + l);
      BelowParts(g, h + (r + l), n);
      BelowParts(h, r + l, n);
      BelowParts(g, r + l, n);
    } else if h != [] && r != [] {
      assert r + l == r;
      OutOfOrder(g, h, r);
    } else {
      assert r + h == h + (r + l);
    }
  }

  /** A failed batch keeps the gauge's order exactly when it does not put a reading back behind a newer one. */
  lemma {:induction false} FailureKeepsGaugeExactly(s: State)
    requires GaugeOrdered(s) && s.chain != []
    ensures GaugeOrdered(SettleStep(s, false)) <==> !StaleReturn(s)
  {
    FailedSteps(s);
    ReturnedOrder(OptStep(s.gauge), OptStep(s.chain[0].acc.context), ChainSteps(s.chain[1..]),
      OptStep(s.live.context), s.steps);
  }

  lemma {:induction false} OutOfOrder(g: seq<int>, h: seq<int>, r: seq<int>)
    requires h != [] && r != [] && Rising(g + (h + r))
    ensures !Rising(g + (r + h))
  {
    var good, bad := g + (h + r), g + (r + h);
    assert good[|g|] == h[0] && good[|g| + |h|] == r[0];
    assert bad[|g|] == r[0] && bad[|g| + |r|] == h[0];
  }

  /** No batch in the run fails while it would put a reading back behind a newer one. */
  predicate NoStaleReturn(events: seq<Event>) {
    forall i :: 0 <= i < |events| && events[i] == Settle(false) ==> !StaleReturn(Run(START, events[..i]))
  }

  lemma {:induction false} PrefixesAgree(events: seq<Event>)
    requires events != [] && NoStaleReturn(events)
    ensures NoStaleReturn(events[..|events| - 1])
    ensures events[|events| - 1] == Settle(false) ==> !StaleReturn(Run(START, events[..|events| - 1]))
  {
    var front := events[..|events| - 1];
    assert forall i :: 0 <= i < |front| ==> front[i] == events[i] && front[..i] == events[..i];
  }

  lemma {:induction false} StepKeepsGauge(s: State, e: Event)
    requires GaugeOrdered(s) && (e == Settle(false) ==> !StaleReturn(s))
    ensures GaugeOrdered(Next(s, e))
  {
    match e
    case StepFinish(key, usage) =>
      assert GaugeSteps(Next(s, e)) == GaugeSteps(s);
    case StepWithGauge(key, usage, tokens, window, compactAfter) =>
      RecordKeepsGauge(s, key, usage, Reading(s.steps, tokens, window, compactAfter));
    case Flush => FlushKeepsGauge(s);
    case Settle(ok) =>
      if s.chain != [] {
        if ok {
          CommitKeepsGauge(s);
        } else {
          FailureKeepsGaugeExactly(s);
        }
      }
  }

  lemma {:induction false} OrderedRun(events: seq<Event>)
    requires NoStaleReturn(events)
    ensures GaugeOrdered(Run(START, events))
  {
    if events != [] {
      PrefixesAgree(events);
      OrderedRun(events[..|events| - 1]);
      StepKeepsGauge(Run(START, events[..|events| - 1]), events[|events| - 1]);
    }
  }

  /** The step stores an older reading over a newer one. */
  predicate GoesBack(s: State, e: Event) {
    var t := Next(s, e);
    s.gauge.Some? && t.gauge.Some? && t.gauge.value.step < s.gauge.value.step
  }

  /** In order, no step stores an older reading, and none loses the stored one. */
  lemma {:induction false} OrderedMovesForward(s: State, e: Event)
    requires GaugeOrdered(s)
    ensures !GoesBack(s, e) && (s.gauge.Some? ==> Next(s, e).gauge.Some?)
  {
    if e == Settle(true) && s.chain != [] && s.gauge.Some? && s.chain[0].acc.context.Some? {
      var steps := GaugeSteps(s);
      assert steps[0] == s.gauge.value.step && steps[1] == s.chain[0].acc.context.value.step;
    }
  }

  lemma {:induction false} NoStalePrefix(events: seq<Event>, n: nat)
    requires n <= |events| && NoStaleReturn(events)
    ensures NoStaleReturn(events[..n])
  {
    var front := events[..n];
    assert forall i :: 0 <= i < |front| ==> front[i] == events[i] && front[..i] == events[..i];
  }

  /** Over a run without such a failure the stored gauge only ever moves to newer readings. */
  lemma {:induction false} GaugeNeverGoesBack(events: seq<Event>, n: nat)
    requires NoStaleReturn(events) && n < |events|
    ensures !GoesBack(Run(START, events[..n]), events[n])
    ensures Run(START, events[..n]).gauge.Some? ==> Run(START, events[..n + 1]).gauge.Some?
  {
    NoStalePrefix(events, n);
    OrderedRun(events[..n]);
    OrderedMovesForward(Run(START, events[..n]), events[n]);
    assert events[..n + 1][..n] == events[..n];
  }

  // ---------- when the gauge goes back ----------

  /** Each reading is in one place, and none is from a step still to come. */
  predicate ReadingsFresh(s: State) {
    NoDuplicates(GaugeSteps(s)) && Below(GaugeSteps(s), s.steps)
  }

  predicate Apart(a: seq<int>, b: seq<int>) {
    forall i, j :: 0 <= i < |a| && 0 <= j < |b| ==> a[i] != b[j]
  }

  lemma {:induction false} DistinctParts(a: seq<int>, b: seq<int>)
    ensures NoDuplicates(a + b) <==> NoDuplicates(a) && NoDuplicates(b) && Apart(a, b)
  {
    var c := a + b;
    assert forall i :: 0 <= i < |a| ==> c[i] == a[i];
    assert forall i :: 0 <= i < |b| ==> c[|a| + i] == b[i];
    if NoDuplicates(c) {
      forall i, j | 0 <= i < |a| && 0 <= j < |b| ensures a[i] != b[j] {
        assert c[i] != c[|a| + j];
      }
      forall i, j | 0 <= i < j < |b| ensures b[i] != b[j] {
        assert c[|a| + i] != c[|a| + j];
      }
    }
  }

  lemma {:induction false} ApartParts(a: seq<int>, b: seq<int>, c: seq<int>)
    ensures Apart(a, b + c) <==> Apart(a, b) && Apart(a, c)
  {
    var d := b + c;
    assert forall i :: 0 <= i < |b| ==> d[i] == b[i];
    assert forall i :: 0 <= i < |c| ==> d[|b| + i] == c[i];
  }

  lemma {:induction false} ReturnedFresh(g: seq<int>, h: seq<int>, r: seq<int>, l: seq<int>, n: int)
    requires NoDuplicates(g + (h + (r + l))) && Below(g + (h + (r + l)), n)
    ensures var after := g + (r + if l == [] then h else l); NoDuplicates(after) && Below(after, n)
  {
    var x := if l == [] then h else l;
    DistinctParts(g, h + (r + l));
    DistinctParts(h, r + l);
    DistinctParts(r, l);
    ApartParts(g, h, r + l);
    ApartParts(g, r, l);
    ApartParts(h, r, l);
    ApartParts(g, r, x);
    DistinctParts(r, x);
    DistinctParts(g, r + x);
    BelowParts(g, h + (r + l), n);
    BelowParts(h, r + l, n);
    BelowParts(r, l, n);
    BelowParts(r, x, n);
    BelowParts(g, r + x, n);
  }

  lemma {:induction false} NewestFresh(a: seq<int>, b: seq<int>, n: int)
    requires NoDuplicates(a + b) && Below(a + b, n)
    ensures NoDuplicates(a + [n]) && Below(a + [n], n + 1)
  {
    DistinctParts(a, b);
    BelowParts(a, b, n);
    DistinctParts(a, [n]);
  }

  lemma {:induction false} OldestGone(g: seq<int>, rest: seq<int>, n: int)
    requires NoDuplicates(g + rest) && Below(g + rest, n)
    ensures NoDuplicates(rest) && Below(rest, n)
  {
    DistinctParts(g, rest);
    BelowParts(g, rest, n);
  }

  lemma {:induction false} CommitKeepsFresh(s: State)
    requires ReadingsFresh(s) && s.chain != []
    ensures ReadingsFresh(SettleStep(s, true))
  {
    var g, h, rest := OptStep(s.gauge), OptStep(s.chain[0].acc.context), ChainSteps(s.chain[1..])
      + OptStep(s.live.context);
    CommittedSteps(s);
    if h == [] {
      assert h + rest == rest;
    } else {
      OldestGone(g, h + rest, s.steps);
    }
  }

  lemma {:induction false} StepKeepsFresh(s: State, e: Event)
    requires ReadingsFresh(s)
    ensures ReadingsFresh(Next(s, e))
  {
    match e
    case StepFinish(key, usage) =>
      assert GaugeSteps(Next(s, e)) == GaugeSteps(s);
    case StepWithGauge(key, usage, tokens, window, compactAfter) =>
      RecordedSteps(s, key, usage, Reading(s.steps, tokens, window, compactAfter));
      NewestFresh(OptStep(s.gauge) + ChainSteps(s.chain), OptStep(s.live.context), s.steps);
    case Flush => FlushKeepsGauge(s);
    case Settle(ok) =>
      if s.chain != [] {
        if ok {
          CommitKeepsFresh(s);
        } else {
          FailedSteps(s);
          ReturnedFresh(OptStep(s.gauge), OptStep(s.chain[0].acc.context), ChainSteps(s.chain[1..]),
                        OptStep(s.live.context), s.steps);
        }
      }
  }

  lemma {:induction false} RunFresh(events: seq<Event>)
    ensures ReadingsFresh(Run(START, events))
  {
    if events != [] {
      RunFresh(events[..|events| - 1]);
      StepKeepsFresh(Run(START, events[..|events| - 1]), events[|events| - 1]);
    }
  }

  predicate NoFailure(events: seq<Event>) {
    forall i :: 0 <= i < |events| ==> events[i] != Settle(false)
  }

  /** The events, none of them a failed batch, lead to a step that stores an older reading. */
  predicate LeadsBack(s: State, events: seq<Event>, e: Event) {
    NoFailure(events) && e != Settle(false) && GoesBack(Run(s, events), e)
  }

  /** With no further failure at all the stored gauge can still go back. */
  ghost predicate BoundToSlip(s: State) {
    exists events, e :: LeadsBack(s, events, e)
  }

  lemma {:induction false} RunCons(s: State, e: Event, events: seq<Event>)
    ensures Run(s, [e] + events) == Run(Next(s, e), events)
  {
    hide Next;
    if events == [] {
      assert [e] + events == [e] && [e][..0] == [];
    } else {
      var front := events[..|events| - 1];
      RunCons(s, e, front);
      assert ([e] + events)[..|events|] == [e] + front;
    }
  }

  lemma {:induction false} SlipsLater(s: State, e: Event)
    requires e != Settle(false) && BoundToSlip(Next(s, e))
    ensures BoundToSlip(s)
  {
    var events, last :| LeadsBack(Next(s, e), events, last);
    RunCons(s, e, events);
    assert LeadsBack(s, [e] + events, last);
  }

  lemma {:induction false} SlipsNow(s: State, e: Event)
    requires e != Settle(false) && GoesBack(s, e)
    ensures BoundToSlip(s)
  {
    assert LeadsBack(s, [], e);
  }

  lemma {:induction false} FirstInOrder(a: int, b: int, rest: seq<int>)
    requires a < b && Rising([b] + rest)
    ensures Rising([a] + ([b] + rest))
  {
    var xs := [a] + ([b] + rest);
    assert forall i :: 0 <= i < |[b] + rest| ==> xs[i + 1] == ([b] + rest)[i];
    assert forall i :: 0 <= i < |[b] + rest| ==> ([b] + rest)[i] >= ([b] + rest)[0];
    forall i, j | 0 <= i < j < |xs| ensures xs[i] < xs[j] {
      assert xs[j] == ([b] + rest)[j - 1];
      if i > 0 {
        assert xs[i] == ([b] + rest)[i - 1];
      }
    }
  }

  lemma {:induction false} LoneGaugeInOrder(s: State)
    ensures s.chain == [] && s.live.context.None? ==> Rising(GaugeSteps(s))
  {
  }

  /** Committing what is in flight runs into the first pair that is out of order. */
  lemma {:induction false} CommittingSlips(s: State)
    requires ReadingsFresh(s) && !Rising(GaugeSteps(s)) && s.live.context.None?
    ensures BoundToSlip(s)
    decreases |s.chain|
  {
    LoneGaugeInOrder(s);
    if s.chain != [] {
      var g, h, rest := OptStep(s.gauge), OptStep(s.chain[0].acc.context), ChainSteps(s.chain[1..])
        + OptStep(s.live.context);
      CommittedSteps(s);
      if GoesBack(s, Settle(true)) {
        SlipsNow(s, Settle(true));
      } else {
        hide ReadingsFresh, Rising, BoundToSlip;
        CommitKeepsFresh(s);
        CommitStaysOut(g, h, rest);
        CommittingSlips(Next(s, Settle(true)));
        SlipsLater(s, Settle(true));
      }
    }
  }

  lemma {:induction false} CommitStaysOut(g: seq<int>, h: seq<int>, rest: seq<int>)
    requires |g| <= 1 && |h| <= 1 && NoDuplicates(g + (h + rest)) && !Rising(g + (h + rest))
    requires g != [] && h != [] ==> g[0] <= h[0]
    ensures !Rising((if h == [] then g else h) + rest)
  {
    if h == [] {
      assert h + rest == rest;
    } else if g == [] {
      assert g + (h + rest) == h + rest;
    } else {
      assert (g + (h + rest))[0] == g[0] && (g + (h + rest))[1] == h[0];
      assert g == [g[0]] && h == [h[0]];
      if Rising(h + rest) {
        FirstInOrder(g[0], h[0], rest);
      }
    }
  }

  lemma {:induction false} OutOfOrderSlips(s: State)
    requires ReadingsFresh(s) && !Rising(GaugeSteps(s))
    ensures BoundToSlip(s)
  {
    if s.live.context.None? {
      CommittingSlips(s);
    } else {
      FlushKeepsGauge(s);
      StepKeepsFresh(s, Flush);
      CommittingSlips(Next(s, Flush));
      SlipsLater(s, Flush);
    }
  }

  lemma {:induction false} OrderedWithoutFailure(s: State, events: seq<Event>)
    requires GaugeOrdered(s) && NoFailure(events)
    ensures GaugeOrdered(Run(s, events))
  {
    if events != [] {
      var front := events[..|events| - 1];
      OrderedWithoutFailure(s, front);
      StepKeepsGauge(Run(s, front), events[|events| - 1]);
    }
  }

  /** In any reachable state the stored gauge will go back, if everything in flight and live commits,
      exactly when the readings are out of order; committing in order it never does. */
  lemma {:induction false} SlipsExactly(events: seq<Event>)
    ensures BoundToSlip(Run(START, events)) <==> !Rising(GaugeSteps(Run(START, events)))
  {
    var s := Run(START, events);
    RunFresh(events);
    if Rising(GaugeSteps(s)) {
      forall more, e ensures !LeadsBack(s, more, e) {
        if NoFailure(more) {
          OrderedWithoutFailure(s, more);
          OrderedMovesForward(Run(s, more), e);
        }
      }
    } else {
      OutOfOrderSlips(s);
    }
  }

  /** A failed batch is what dooms the gauge exactly when its reading returns behind a newer one: in a
      state reached without such a failure, some failure-free continuation of it stores an older
      reading over a newer one if and only if it is one. */
  lemma {:induction false} StaleReturnExactly(events: seq<Event>)
    requires NoStaleReturn(events) && Run(START, events).chain != []
    ensures BoundToSlip(Run(START, events + [Settle(false)])) <==> StaleReturn(Run(START, events))
  {
    var s := Run(START, events);
    OrderedRun(events);
    FailureKeepsGaugeExactly(s);
    assert (events + [Settle(false)])[..|events|] == events;
    RunFresh(events + [Settle(false)]);
    SlipsExactly(events + [Settle(false)]);
  }

  // ---------- a run in which it goes back ----------

  const CALL := Usage(10, 0, 0, 5, 0, 1)

  /** A step's reading, flushed behind an older one whose batch then fails. */
  const SLIP: seq<Event> := [Reads(100), Flush, Reads(200), Flush, Settle(false), Settle(true), Flush, Settle(true)]

  function Reads(tokens: int): Event {
    StepWithGauge("k", CALL, tokens, 1_000, None)
  }

  predicate Holds(s: State, gauge: Option<int>, chain: seq<int>, live: Option<int>, steps: int) {
    && (s.gauge.Some? <==> gauge.Some?) && (s.gauge.Some? ==> s.gauge.value.step == gauge.value)
    && |s.chain| == |chain|
    && (forall i :: 0 <= i < |chain| ==> s.chain[i].acc.context.Some? && s.chain[i].acc.context.value.step == chain[i])
    && (s.live.context.Some? <==> live.Some?) && (s.live.context.Some? ==> s.live.context.value.step == live.value)
    && s.steps == steps
  }

  lemma {:induction false} HoldsRecord(s: State, gauge: Option<int>, chain: seq<int>, live: Option<int>, tokens: int)
    requires Holds(s, gauge, chain, live, s.steps)
    ensures Holds(Next(s, Reads(tokens)), gauge, chain, Some(s.steps), s.steps + 1)
  {
    hide AddOne;
  }

  lemma {:induction false} HoldsFlush(s: State, gauge: Option<int>, chain: seq<int>, live: int)
    requires Holds(s, gauge, chain, Some(live), s.steps)
    ensures Holds(Next(s, Flush), gauge, chain + [live], None, s.steps)
  {
  }

  lemma {:induction false} HoldsSettle(s: State, gauge: Option<int>, first: int, rest: seq<int>, ok: bool)
    requires Holds(s, gauge, [first] + rest, None, s.steps)
    ensures Holds(Next(s, Settle(ok)), if ok then Some(first) else gauge, rest,
                  if ok then None else Some(first), s.steps)
  {
    var t := SettleStep(s, ok);
    forall i | 0 <= i < |rest| ensures t.chain[i].acc.context.Some? && t.chain[i].acc.context.value.step == rest[i] {
      assert ([first] + rest)[i + 1] == rest[i];
    }
  }

  lemma {:induction false} HoldsCommitBehind(s: State, gauge: Option<int>, first: int, live: int)
    requires Holds(s, gauge, [first], Some(live), s.steps)
    ensures Holds(Next(s, Settle(true)), Some(first), [], Some(live), s.steps)
  {
  }

  /** A run of the shape of `SLIP`, whatever its numbers. */
  predicate IsSlip(e: seq<Event>) {
    && |e| == 8 && e[0] == Reads(100) && e[1] == Flush && e[2] == Reads(200) && e[3] == Flush
    && e[4] == Settle(false) && e[5] == Settle(true) && e[6] == Flush && e[7] == Settle(true)
  }

  function After(e: seq<Event>, n: nat): State
    requires n <= |e|
  {
    Run(START, e[..n])
  }

  lemma {:induction false} AfterNext(e: seq<Event>, n: nat)
    requires n < |e|
    ensures After(e, n + 1) == Next(After(e, n), e[n])
  {
    assert e[..n + 1][..n] == e[..n];
  }

  lemma {:induction false} Lists()
    ensures [] + [0] == [0] && [0] + [1] == [0, 1] && [0] + [] == [0] && [1] + [] == [1]
  {
  }

  lemma {:induction false} SlipStart(e: seq<Event>)
    requires IsSlip(e)
    ensures Holds(After(e, 2), None, [0], None, 1)
  {
    assert e[..0] == [] && Holds(START, None, [], None, 0);
    AfterNext(e, 0);
    HoldsRecord(After(e, 0), None, [], None, 100);
    AfterNext(e, 1);
    HoldsFlush(After(e, 1), None, [], 0);
    Lists();
  }

  lemma {:induction false} SlipMiddle(e: seq<Event>)
    requires IsSlip(e)
    ensures Holds(After(e, 4), None, [0] + [1], None, 2)
  {
    SlipStart(e);
    AfterNext(e, 2);
    HoldsRecord(After(e, 2), None, [0], None, 200);
    AfterNext(e, 3);
    HoldsFlush(After(e, 3), None, [0], 1);
  }

  lemma {:induction false} SlipSettled(e: seq<Event>)
    requires IsSlip(e)
    ensures Holds(After(e, 6), Some(1), [], Some(0), 2)
  {
    SlipMiddle(e);
    AfterNext(e, 4);
    HoldsSettle(After(e, 4), None, 0, [1], false);
    AfterNext(e, 5);
    HoldsCommitBehind(After(e, 5), None, 1, 0);
  }

  lemma {:induction false} SlipEnd(e: seq<Event>)
    requires IsSlip(e)
    ensures Holds(After(e, 7), Some(1), [0], None, 2) && Holds(After(e, 8), Some(0), [], None, 2)
    ensures GoesBack(After(e, 7), e[7])
  {
    SlipSettled(e);
    AfterNext(e, 6);
    HoldsFlush(After(e, 6), Some(1), [], 0);
    Lists();
    AfterNext(e, 7);
    HoldsSettle(After(e, 7), Some(1), 0, [], true);
  }

  /** From the start: two readings are flushed, the first batch fails, the second commits, and the
      retried first one then stores its older reading over the newer. */
  lemma {:induction false} GaugeCanGoBack()
    ensures GoesBack(After(SLIP, 7), Settle(true))
    ensures After(SLIP, 7).gauge.Some? && After(SLIP, 7).gauge.value.step == 1
    ensures After(SLIP, 8).gauge.Some? && After(SLIP, 8).gauge.value.step == 0
  {
    SlipEnd(SLIP);
  }
}
