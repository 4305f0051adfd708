/**
 The feedback rate limiter (src/agent/feedback-rate-limit.ts): sliding hour and day windows kept
 over a truncated history of accepted events.
 */
module FeedbackRateLimit {
  import opened Wrappers

  const HOUR_MS := 3_600_000
  const DAY_MS := 86_400_000
  const MODEL_TURNS_PER_HOUR := 30
  const REPORTS_PER_HOUR := 5
  const REPORTS_PER_DAY := 20

  datatype Event = Event(key: string, at: int)

  datatype Kind = ModelTurn | ReportSubmission

  datatype Decision = Accepted | Refused(retryAfterSeconds: int)

  /** The stored state; a missing list reads as an empty one. */
  datatype Limits = Limits(modelTurns: seq<Event>, reports: seq<Event>)

  /** Events strictly later than `t`, in stored order. */
  function Since(events: seq<Event>, t: int): seq<Event> {
    if events == [] then []
    else
      var last := events[|events| - 1];
      Since(events[..|events| - 1], t) + (if last.at > t then [last] else [])
  }

  function Insert(sorted: seq<Event>, e: Event): seq<Event> {
    if sorted == [] || sorted[|sorted| - 1].at <= e.at then sorted + [e]
    else Insert(sorted[..|sorted| - 1], e) + [sorted[|sorted| - 1]]
  }

  /** Stable sort by time. */
  function SortByTime(events: seq<Event>): seq<Event> {
    if events == [] then []
    else Insert(SortByTime(events[..|events| - 1]), events[|events| - 1])
  }

  function ActiveEvents(events: seq<Event>, now: int): seq<Event> {
    SortByTime(Since(events, now - DAY_MS))
  }

  function RetryAfterSeconds(events: seq<Event>, now: int, windowMs: int): int {
    if events == [] then 1
    else Max(1, CeilDiv(events[0].at + windowMs - now, 1000))
  }

  function CapEvents(events: seq<Event>, limit: nat): seq<Event> {
    events[Max(0, |events| - limit)..]
  }

  predicate HasKey(events: seq<Event>, key: string) {
    exists i :: 0 <= i < |events| && events[i].key == key
  }

  function Stored(turns: seq<Event>, reports: seq<Event>): Limits {
    Limits(CapEvents(turns, MODEL_TURNS_PER_HOUR), CapEvents(reports, REPORTS_PER_DAY))
  }

  /** One call to `reserveFeedbackSlot`: the decision and the state it stores. */
  function Reserve(state: Limits, kind: Kind, key: string, now: int): (Limits, Decision) {
    var turns := ActiveEvents(state.modelTurns, now);
    var reports := ActiveEvents(state.reports, now);
    match kind
    case ModelTurn =>
      var hourly := Since(turns, now - HOUR_MS);
      if HasKey(turns, key) then (Stored(turns, reports), Accepted)
      else if |hourly| >= MODEL_TURNS_PER_HOUR then
        (Stored(turns, reports), Refused(RetryAfterSeconds(hourly, now, HOUR_MS)))
      else (Stored(turns + [Event(key, now)], reports), Accepted)
    case ReportSubmission =>
      var hourly := Since(reports, now - HOUR_MS);
      if HasKey(reports, key) then (Stored(turns, reports), Accepted)
      else if |hourly| >= REPORTS_PER_HOUR then
        (Stored(turns, reports), Refused(RetryAfterSeconds(hourly, now, HOUR_MS)))
      else if |reports| >= REPORTS_PER_DAY then
        (Stored(turns, reports), Refused(RetryAfterSeconds(reports, now, DAY_MS)))
      else (Stored(turns, reports + [Event(key, now)]), Accepted)
  }

  class FeedbackRateLimiter {
    var modelTurns: seq<Event>
    var reportSubmissions: seq<Event>

    function State(): Limits
      reads this
    {
      Limits(modelTurns, reportSubmissions)
    }

    constructor ()
      ensures State() == Limits([], [])
    {
      modelTurns, reportSubmissions := [], [];
    }

    method Put(turns: seq<Event>, reports: seq<Event>)
      modifies this
      ensures State() == Stored(turns, reports)
    {
      modelTurns := CapEvents(turns, MODEL_TURNS_PER_HOUR);
      reportSubmissions := CapEvents(reports, REPORTS_PER_DAY);
    }

    method ReserveFeedbackSlot(kind: Kind, key: string, now: int) returns (decision: Decision)
      modifies this
      ensures (State(), decision) == Reserve(old(State()), kind, key, now)
    {
      var turns := ActiveEvents(modelTurns, now);
      var reports := ActiveEvents(reportSubmissions, now);
      if kind.ModelTurn? {
        if HasKey(turns, key) {
          Put(turns, reports);
          return Accepted;
        }
        var hourly := Since(turns, now - HOUR_MS);
        if |hourly| >= MODEL_TURNS_PER_HOUR {
          Put(turns, reports);
          return Refused(RetryAfterSeconds(hourly, now, HOUR_MS));
        }
        Put(turns + [Event(key, now)], reports);
        return Accepted;
      }
      if HasKey(reports, key) {
        Put(turns, reports);
        return Accepted;
      }
      var hourlyReports := Since(reports, now - HOUR_MS);
      if |hourlyReports| >= REPORTS_PER_HOUR {
        Put(turns, reports);
        return Refused(RetryAfterSeconds(hourlyReports, now, HOUR_MS));
      }
      if |reports| >= REPORTS_PER_DAY {
        Put(turns, reports);
        return Refused(RetryAfterSeconds(reports, now, DAY_MS));
      }
      Put(turns, reports + [Event(key, now)]);
      return Accepted;
    }
  }

  // ---------- call histories ----------

  datatype Call = Call(kind: Kind, key: string, now: int)

  /** The stored state after a history, and every event that ever took a slot. */
  datatype Trace = Trace(state: Limits, turns: seq<Event>, reports: seq<Event>)

  function CallDecision(state: Limits, call: Call): Decision {
    Reserve(state, call.kind, call.key, call.now).1
  }

  /** Accepted without being a repeat of a remembered key. */
  predicate TakesSlot(state: Limits, call: Call) {
    && CallDecision(state, call).Accepted?
    && !HasKey(ActiveEvents(if call.kind.ModelTurn? then state.modelTurns else state.reports, call.now), call.key)
  }

  function NextTrace(t: Trace, call: Call): Trace {
    var taken := if TakesSlot(t.state, call) then [Event(call.key, call.now)] else [];
    Trace(Reserve(t.state, call.kind, call.key, call.now).0,
          if call.kind.ModelTurn? then t.turns + taken else t.turns,
          if call.kind.ReportSubmission? then t.reports + taken else t.reports)
  }

  function After(calls: seq<Call>): Trace {
    if calls == [] then Trace(Limits([], []), [], [])
    else NextTrace(After(calls[..|calls| - 1]), calls[|calls| - 1])
  }

  /** The clock never goes back. */
  predicate Chronological(calls: seq<Call>) {
    forall i, j :: 0 <= i < j < |calls| ==> calls[i].now <= calls[j].now
  }

  predicate NotBefore(calls: seq<Call>, now: int) {
    forall i :: 0 <= i < |calls| ==> calls[i].now <= now
  }

  // ---------- sorted event lists ----------

  predicate Sorted(events: seq<Event>) {
    forall i, j :: 0 <= i < j < |events| ==> events[i].at <= events[j].at
  }

  lemma {:induction false} SortedIsSorted(events: seq<Event>)
    requires Sorted(events)
    ensures SortByTime(events) == events
  {
    if events != [] {
      var n := |events| - 1;
      SortedIsSorted(events[..n]);
      assert n > 0 ==> events[..n][n - 1].at <= events[n].at;
    }
  }

  lemma {:induction false} SuffixSnoc<T>(s: seq<T>, k: nat)
    requires k < |s|
    ensures s[k..] == s[..|s| - 1][k..] + [s[|s| - 1]]
  {
  }

  lemma {:induction false} SortedFront(events: seq<Event>)
    requires Sorted(events) && events != []
    ensures Sorted(events[..|events| - 1])
    ensures forall i :: 0 <= i < |events| - 1 ==>
            events[..|events| - 1][i] == events[i] && events[i].at <= events[|events| - 1].at
  {
  }

  /** Whether `k` separates the events up to `t` from the later ones. */
  predicate Splits(events: seq<Event>, t: int, k: nat) {
    && k <= |events|
    && (forall i :: 0 <= i < k ==> events[i].at <= t)
    && (forall i :: k <= i < |events| ==> events[i].at > t)
  }

  /** In a sorted list the later events are a suffix. */
  lemma {:induction false} SinceIsSuffix(events: seq<Event>, t: int) returns (k: nat)
    requires Sorted(events)
    ensures Splits(events, t, k) && Since(events, t) == events[k..]
  {
    k := |events|;
    if events == [] || events[|events| - 1].at <= t {
      NothingSince(events, t);
    } else {
      hide Sorted, Splits;
      var n := |events| - 1;
      SortedFront(events);
      k := SinceIsSuffix(events[..n], t);
      StillSplits(events, t, k);
      SuffixSnoc(events, k);
    }
  }

  lemma {:induction false} StillSplits(events: seq<Event>, t: int, k: nat)
    requires events != [] && Splits(events[..|events| - 1], t, k) && events[|events| - 1].at > t
    ensures Splits(events, t, k)
  {
    assert forall i :: 0 <= i < |events| - 1 ==> events[..|events| - 1][i] == events[i];
  }

  lemma {:induction false} NothingSince(events: seq<Event>, t: int)
    requires Sorted(events) && (events != [] ==> events[|events| - 1].at <= t)
    ensures Splits(events, t, |events|) && Since(events, t) == []
  {
    if events != [] {
      SortedFront(events);
      assert |events| > 1 ==> events[|events| - 2].at <= events[|events| - 1].at;
      NothingSince(events[..|events| - 1], t);
    }
  }

  /** Any `n + 1` consecutive events span at least `w`. */
  predicate Spaced(events: seq<Event>, n: nat, w: int) {
    forall i, j :: 0 <= i < |events| && 0 <= j < |events| && j == i + n ==> events[i].at + w <= events[j].at
  }

  /** `stored` is the end of `log`; whatever was dropped has expired or has `cap` events after it. */
  predicate Remembers(stored: seq<Event>, log: seq<Event>, cap: nat, now: int) {
    && |stored| <= |log| && stored == log[|log| - |stored|..]
    && |stored| <= cap
    && (|stored| < cap ==> forall i :: 0 <= i < |log| - |stored| ==> log[i].at <= now - DAY_MS)
  }

  predicate LogOk(log: seq<Event>, now: int) {
    Sorted(log) && forall i :: 0 <= i < |log| ==> log[i].at <= now
  }

  predicate ListOk(stored: seq<Event>, log: seq<Event>, cap: nat, now: int) {
    LogOk(log, now) && Remembers(stored, log, cap, now) && Sorted(stored)
  }

  lemma {:induction false} ActiveIsSuffix(stored: seq<Event>, now: int) returns (k: nat)
    requires Sorted(stored)
    ensures k <= |stored| && ActiveEvents(stored, now) == stored[k..]
    ensures Sorted(stored[k..])
    ensures forall i :: 0 <= i < k ==> stored[i].at <= now - DAY_MS
    ensures forall i :: k <= i < |stored| ==> stored[i].at > now - DAY_MS
  {
    k := SinceIsSuffix(stored, now - DAY_MS);
    SortedSuffix(stored, k);
    SortedIsSorted(stored[k..]);
  }

  lemma {:induction false} SortedSuffix(events: seq<Event>, k: nat)
    requires k <= |events| && Sorted(events)
    ensures Sorted(events[k..])
  {
  }

  /** Reading the stored list at a later time loses only expired events. */
  lemma {:induction false} ActiveRemembers(stored: seq<Event>, log: seq<Event>, cap: nat, was: int, now: int)
    requires ListOk(stored, log, cap, was) && was <= now
    ensures ListOk(ActiveEvents(stored, now), log, cap, now)
    ensures forall i :: 0 <= i < |ActiveEvents(stored, now)| ==> ActiveEvents(stored, now)[i].at > now - DAY_MS
  {
    var k := ActiveIsSuffix(stored, now);
    SuffixOfSuffix(log, |log| - |stored|, k);
    SuffixRemembers(stored, log, cap, was, now, k);
  }

  lemma {:induction false} SuffixRemembers(stored: seq<Event>, log: seq<Event>, cap: nat, was: int, now: int, k: nat)
    requires Remembers(stored, log, cap, was) && Sorted(log) && was <= now && k <= |stored|
    requires stored[k..] == log[|log| - |stored| + k..]
    requires forall i :: 0 <= i < k ==> stored[i].at <= now - DAY_MS
    ensures Remembers(stored[k..], log, cap, now)
  {
    if |stored| - k < cap {
      forall i | 0 <= i < |log| - |stored| + k ensures log[i].at <= now - DAY_MS {
        DroppedIsExpired(stored, log, cap, was, now, k, i);
      }
    }
  }

  lemma {:induction false} StoredSorted(stored: seq<Event>, log: seq<Event>, cap: nat, now: int)
    requires Remembers(stored, log, cap, now) && Sorted(log)
    ensures Sorted(stored)
    ensures forall i :: 0 <= i < |stored| ==> stored[i] == log[|log| - |stored| + i]
  {
  }

  lemma {:induction false} SuffixOfSuffix<T>(s: seq<T>, d: nat, k: nat)
    requires d + k <= |s|
    ensures s[d..][k..] == s[d + k..]
  {
  }

  lemma {:induction false} DroppedIsExpired(stored: seq<Event>, log: seq<Event>, cap: nat, was: int, now: int,
        k: nat, i: nat)
    requires Remembers(stored, log, cap, was) && was <= now && Sorted(log)
    requires k <= |stored| && |stored| - k < cap && i < |log| - |stored| + k
    requires forall j :: 0 <= j < k ==> stored[j].at <= now - DAY_MS
    ensures log[i].at <= now - DAY_MS
  {
    var d := |log| - |stored|;
    StoredSorted(stored, log, cap, was);
    if i >= d {
      assert log[i] == stored[i - d];
    } else if |stored| == cap {
      assert stored[0] == log[d];
      assert log[i].at <= log[d].at;
    }
  }

  lemma {:induction false} CapRemembers(active: seq<Event>, log: seq<Event>, cap: nat, now: int)
    requires Remembers(active, log, cap, now)
    ensures CapEvents(active, cap) == active
  {
  }

  lemma {:induction false} AppendRemembers(active: seq<Event>, log: seq<Event>, cap: nat, e: Event)
    requires Remembers(active, log, cap, e.at) && cap > 0
    requires LogOk(log, e.at)
    ensures Remembers(CapEvents(active + [e], cap), log + [e], cap, e.at) && LogOk(log + [e], e.at)
  {
    var stored := CapEvents(active + [e], cap);
    var log' := log + [e];
    assert active + [e] == log'[|log| - |active|..];
    assert stored == log'[|log'| - |stored|..];
  }

  lemma {:induction false} SinceSkips(log: seq<Event>, d: nat, t: int)
    requires d <= |log| && forall i :: 0 <= i < d ==> log[i].at <= t
    ensures Since(log[d..], t) == Since(log, t)
  {
    if |log| > d {
      var n := |log| - 1;
      SinceSkips(log[..n], d, t);
      assert log[d..][..n - d] == log[..n][d..];
    } else if d > 0 {
      SinceSkips(log[..d - 1], d - 1, t);
      assert log[..d - 1][d - 1..] == [] && log[d..] == [];
    }
  }

  /** Everything in a window no longer than the memory is still stored. */
  lemma {:induction false} RecentIsStored(active: seq<Event>, log: seq<Event>, cap: nat, w: int, now: int)
    requires Remembers(active, log, cap, now) && LogOk(log, now)
    requires Spaced(log, cap, w) && 0 < w <= DAY_MS
    ensures Since(active, now - w) == Since(log, now - w)
  {
    var d := |log| - |active|;
    forall i | 0 <= i < d ensures log[i].at <= now - w {
      if |active| == cap {
        assert log[i].at + w <= log[i + cap].at;
      }
    }
    SinceSkips(log, d, now - w);
  }

  /** Accepting below the limit keeps the spacing. */
  lemma {:induction false} AcceptKeepsSpacing(log: seq<Event>, n: nat, w: int, e: Event)
    requires Spaced(log, n, w) && Sorted(log) && |Since(log, e.at - w)| < n
    ensures Spaced(log + [e], n, w)
  {
    var k := SinceIsSuffix(log, e.at - w);
    var log' := log + [e];
    forall i, j | 0 <= i && j == i + n && j < |log'| ensures log'[i].at + w <= log'[j].at {
      if j == |log| {
        assert i < k;
      }
    }
  }

  /** How many slots a window holds: at most the limit, wherever the window ends. */
  function InWindow(log: seq<Event>, end: int, w: int): seq<Event> {
    if log == [] then []
    else
      var last := log[|log| - 1];
      InWindow(log[..|log| - 1], end, w) + (if end - w < last.at <= end then [last] else [])
  }

  lemma {:induction false} TooOldForWindow(log: seq<Event>, end: int, w: int, k: nat)
    requires k <= |log| && forall i :: 0 <= i < k ==> log[i].at <= end - w
    ensures |InWindow(log, end, w)| <= |log| - k
  {
    if |log| > k {
      TooOldForWindow(log[..|log| - 1], end, w, k);
    } else if |log| > 0 {
      TooOldForWindow(log[..|log| - 1], end, w, k - 1);
    }
  }

  lemma {:induction false} SpacedBoundsWindow(log: seq<Event>, n: nat, w: int, end: int)
    requires Sorted(log) && Spaced(log, n, w)
    ensures |InWindow(log, end, w)| <= n
  {
    if log != [] {
      var last := log[|log| - 1];
      if end - w < last.at <= end {
        if |log| > n {
          assert log[|log| - 1 - n].at + w <= log[|log| - 1].at;
          TooOldForWindow(log, end, w, |log| - n);
        } else {
          TooOldForWindow(log, end, w, 0);
        }
      } else {
        SpacedFront(log, n, w);
        SpacedBoundsWindow(log[..|log| - 1], n, w, end);
      }
    }
  }

  lemma {:induction false} SpacedFront(log: seq<Event>, n: nat, w: int)
    requires log != [] && Sorted(log) && Spaced(log, n, w)
    ensures Sorted(log[..|log| - 1]) && Spaced(log[..|log| - 1], n, w)
  {
    var front := log[..|log| - 1];
    forall i, j | 0 <= i && j == i + n && j < |front| ensures front[i].at + w <= front[j].at {
      assert log[i].at + w <= log[j].at;
    }
  }

  // ---------- what holds after any history ----------

  predicate TraceOk(t: Trace, now: int) {
    && ListOk(t.state.modelTurns, t.turns, MODEL_TURNS_PER_HOUR, now)
    && ListOk(t.state.reports, t.reports, REPORTS_PER_DAY, now)
    && Spaced(t.turns, MODEL_TURNS_PER_HOUR, HOUR_MS)
    && Spaced(t.reports, REPORTS_PER_HOUR, HOUR_MS)
    && Spaced(t.reports, REPORTS_PER_DAY, DAY_MS)
  }

  /** A call that takes no slot stores what is still active. */
  lemma {:induction false} ReadKeepsList(stored: seq<Event>, log: seq<Event>, cap: nat, was: int, now: int)
    requires ListOk(stored, log, cap, was) && was <= now
    ensures ListOk(CapEvents(ActiveEvents(stored, now), cap), log, cap, now)
  {
    ActiveRemembers(stored, log, cap, was, now);
    CapRemembers(ActiveEvents(stored, now), log, cap, now);
  }

  lemma {:induction false} HourSeen(stored: seq<Event>, log: seq<Event>, cap: nat, was: int, now: int)
    requires ListOk(stored, log, cap, was) && was <= now && Spaced(log, cap, HOUR_MS)
    ensures Since(ActiveEvents(stored, now), now - HOUR_MS) == Since(log, now - HOUR_MS)
  {
    ActiveRemembers(stored, log, cap, was, now);
    RecentIsStored(ActiveEvents(stored, now), log, cap, HOUR_MS, now);
  }

  lemma {:induction false} DaySeen(stored: seq<Event>, log: seq<Event>, cap: nat, was: int, now: int)
    requires ListOk(stored, log, cap, was) && was <= now && Spaced(log, cap, DAY_MS)
    ensures ActiveEvents(stored, now) == Since(log, now - DAY_MS)
  {
    ActiveRemembers(stored, log, cap, was, now);
    RecentIsStored(ActiveEvents(stored, now), log, cap, DAY_MS, now);
    AllActive(ActiveEvents(stored, now), now - DAY_MS);
  }

  lemma {:induction false} AllActive(events: seq<Event>, t: int)
    requires forall i :: 0 <= i < |events| ==> events[i].at > t
    ensures Since(events, t) == events
  {
    if events != [] {
      AllActive(events[..|events| - 1], t);
    }
  }

  lemma {:induction false} SpacedWeaken(log: seq<Event>, n: nat)
    requires Spaced(log, n, DAY_MS)
    ensures Spaced(log, n, HOUR_MS)
  {
  }

  lemma {:induction false} TakeKeepsList(stored: seq<Event>, log: seq<Event>, cap: nat, was: int, e: Event)
    requires ListOk(stored, log, cap, was) && was <= e.at && cap > 0
    ensures ListOk(CapEvents(ActiveEvents(stored, e.at) + [e], cap), log + [e], cap, e.at)
  {
    ActiveRemembers(stored, log, cap, was, e.at);
    AppendRemembers(ActiveEvents(stored, e.at), log, cap, e);
    StoredSorted(CapEvents(ActiveEvents(stored, e.at) + [e], cap), log + [e], cap, e.at);
  }

  /** The trace after a call, list by list. */
  lemma {:induction false} NextTraceLists(t: Trace, call: Call)
    ensures var turns, reports := ActiveEvents(t.state.modelTurns, call.now), ActiveEvents(t.state.reports, call.now);
            var e := Event(call.key, call.now);
            NextTrace(t, call) ==
            if !TakesSlot(t.state, call) then Trace(Stored(turns, reports), t.turns, t.reports)
            else if call.kind.ModelTurn? then Trace(Stored(turns + [e], reports), t.turns + [e], t.reports)
            else Trace(Stored(turns, reports + [e]), t.turns, t.reports + [e])
  {
    NothingAdded(t.turns);
    NothingAdded(t.reports);
  }

  /** A call sees exactly the log's own recent events, so the limits are those of the whole history. */
  lemma {:induction false} CallKeepsTrace(t: Trace, call: Call, was: int)
    requires TraceOk(t, was) && was <= call.now
    ensures TraceOk(NextTrace(t, call), call.now)
  {
    NextTraceLists(t, call);
    ReadKeepsList(t.state.modelTurns, t.turns, MODEL_TURNS_PER_HOUR, was, call.now);
    ReadKeepsList(t.state.reports, t.reports, REPORTS_PER_DAY, was, call.now);
    if TakesSlot(t.state, call) {
      var e := Event(call.key, call.now);
      if call.kind.ModelTurn? {
        TakeKeepsList(t.state.modelTurns, t.turns, MODEL_TURNS_PER_HOUR, was, e);
        TurnSpacing(t, call, was);
      } else {
        TakeKeepsList(t.state.reports, t.reports, REPORTS_PER_DAY, was, e);
        ReportSpacing(t, call, was);
      }
    }
  }

  lemma {:induction false} TurnSpacing(t: Trace, call: Call, was: int)
    requires TraceOk(t, was) && was <= call.now && TakesSlot(t.state, call) && call.kind.ModelTurn?
    ensures Spaced(t.turns + [Event(call.key, call.now)], MODEL_TURNS_PER_HOUR, HOUR_MS)
  {
    hide ActiveEvents, Since, Spaced, Remembers, HasKey, Stored;
    HourSeen(t.state.modelTurns, t.turns, MODEL_TURNS_PER_HOUR, was, call.now);
    AcceptKeepsSpacing(t.turns, MODEL_TURNS_PER_HOUR, HOUR_MS, Event(call.key, call.now));
  }

  lemma {:induction false} ReportSpacing(t: Trace, call: Call, was: int)
    requires TraceOk(t, was) && was <= call.now && TakesSlot(t.state, call) && call.kind.ReportSubmission?
    ensures Spaced(t.reports + [Event(call.key, call.now)], REPORTS_PER_HOUR, HOUR_MS)
    ensures Spaced(t.reports + [Event(call.key, call.now)], REPORTS_PER_DAY, DAY_MS)
  {
    hide TraceOk, TakesSlot, Since, Spaced, Sorted;
    ReportSlotFree(t, call, was);
    AcceptKeepsSpacing(t.reports, REPORTS_PER_HOUR, HOUR_MS, Event(call.key, call.now));
    AcceptKeepsSpacing(t.reports, REPORTS_PER_DAY, DAY_MS, Event(call.key, call.now));
  }

  lemma {:induction false} ReportSlotFree(t: Trace, call: Call, was: int)
    requires TraceOk(t, was) && was <= call.now && TakesSlot(t.state, call) && call.kind.ReportSubmission?
    ensures Sorted(t.reports) && Spaced(t.reports, REPORTS_PER_HOUR, HOUR_MS)
            && Spaced(t.reports, REPORTS_PER_DAY, DAY_MS)
    ensures |Since(t.reports, call.now - HOUR_MS)| < REPORTS_PER_HOUR
    ensures |Since(t.reports, call.now - DAY_MS)| < REPORTS_PER_DAY
  {
    hide ActiveEvents, Since, Spaced, Remembers, HasKey, Stored;
    ReportCounts(t, was, call.now);
  }

  lemma {:induction false} ReportCounts(t: Trace, was: int, now: int)
    requires TraceOk(t, was) && was <= now
    ensures Since(ActiveEvents(t.state.reports, now), now - HOUR_MS) == Since(t.reports, now - HOUR_MS)
    ensures ActiveEvents(t.state.reports, now) == Since(t.reports, now - DAY_MS)
  {
    SpacedWeaken(t.reports, REPORTS_PER_DAY);
    HourSeen(t.state.reports, t.reports, REPORTS_PER_DAY, was, now);
    DaySeen(t.state.reports, t.reports, REPORTS_PER_DAY, was, now);
  }

  lemma {:induction false} HistoryOk(calls: seq<Call>, now: int)
    requires Chronological(calls) && NotBefore(calls, now)
    ensures TraceOk(After(calls), now)
  {
    if calls != [] {
      var n := |calls| - 1;
      HistoryOk(calls[..n], calls[n].now);
      CallKeepsTrace(After(calls[..n]), calls[n], calls[n].now);
      LaterOk(After(calls), calls[n].now, now);
    }
  }

  lemma {:induction false} LaterOk(t: Trace, was: int, now: int)
    requires TraceOk(t, was) && was <= now
    ensures TraceOk(t, now)
  {
  }

  /** Whatever the call sequence, every window holds at most its limit of slots, although only the
      last 30 turns and 20 reports are remembered. */
  lemma {:induction false} WindowsHold(calls: seq<Call>, end: int)
    requires Chronological(calls)
    ensures |InWindow(After(calls).turns, end, 3_600_000)| <= 30
    ensures |InWindow(After(calls).reports, end, 3_600_000)| <= 5
    ensures |InWindow(After(calls).reports, end, 86_400_000)| <= 20
    ensures |After(calls).state.modelTurns| <= 30 && |After(calls).state.reports| <= 20
  {
    var t := After(calls);
    HistoryOk(calls, if calls == [] then 0 else calls[|calls| - 1].now);
    SpacedBoundsWindow(t.turns, MODEL_TURNS_PER_HOUR, HOUR_MS, end);
    SpacedBoundsWindow(t.reports, REPORTS_PER_HOUR, HOUR_MS, end);
    SpacedBoundsWindow(t.reports, REPORTS_PER_DAY, DAY_MS, end);
  }

  // ---------- repeated keys ----------

  lemma {:induction false} SinceContains(events: seq<Event>, t: int, i: nat)
    requires i < |events| && events[i].at > t
    ensures events[i] in Since(events, t)
  {
    if i < |events| - 1 {
      SinceContains(events[..|events| - 1], t, i);
    }
  }

  lemma {:induction false} SinceOrigin(events: seq<Event>, t: int, e: Event)
    requires e in Since(events, t)
    ensures e in events
  {
    if e != events[|events| - 1] {
      SinceOrigin(events[..|events| - 1], t, e);
    }
  }

  lemma {:induction false} KeyKnown(events: seq<Event>, e: Event)
    requires e in events
    ensures HasKey(events, e.key)
  {
    var i :| 0 <= i < |events| && events[i] == e;
  }

  /** Sending a turn's key again within the hour is accepted and costs no slot. */
  lemma {:induction false} RepeatedTurnIsFree(calls: seq<Call>, now: int, i: nat)
    requires Chronological(calls) && NotBefore(calls, now)
    requires i < |After(calls).turns| && After(calls).turns[i].at > now - HOUR_MS
    ensures var t, call := After(calls), Call(ModelTurn, After(calls).turns[i].key, now);
            CallDecision(t.state, call) == Accepted && !TakesSlot(t.state, call)
  {
    var t := After(calls);
    HistoryOk(calls, now);
    HourSeen(t.state.modelTurns, t.turns, MODEL_TURNS_PER_HOUR, now, now);
    SinceContains(t.turns, now - HOUR_MS, i);
    SinceOrigin(ActiveEvents(t.state.modelTurns, now), now - HOUR_MS, t.turns[i]);
    KeyKnown(ActiveEvents(t.state.modelTurns, now), t.turns[i]);
  }

  /** Sending a report's key again within the day is accepted and costs no slot. */
  lemma {:induction false} RepeatedReportIsFree(calls: seq<Call>, now: int, i: nat)
    requires Chronological(calls) && NotBefore(calls, now)
    requires i < |After(calls).reports| && After(calls).reports[i].at > now - DAY_MS
    ensures var t, call := After(calls), Call(ReportSubmission, After(calls).reports[i].key, now);
            CallDecision(t.state, call) == Accepted && !TakesSlot(t.state, call)
  {
    var t := After(calls);
    HistoryOk(calls, now);
    ReportCounts(t, now, now);
    SinceContains(t.reports, now - DAY_MS, i);
    KeyKnown(ActiveEvents(t.state.reports, now), t.reports[i]);
  }

  // ---------- retry times ----------

  lemma {:induction false} SpanBehind(log: seq<Event>, n: nat, w: int, now: int, k: nat)
    requires LogOk(log, now) && Spaced(log, n, w)
    ensures k + n < |log| ==> log[k].at + w <= now
  {
    if k + n < |log| {
      assert log[k].at + w <= log[k + n].at;
    }
  }

  /** In a spaced log a window never holds more than `n` events. */
  lemma {:induction false} AtMostN(log: seq<Event>, n: nat, w: int, now: int, k: nat)
    requires LogOk(log, now) && Spaced(log, n, w)
    requires k < |log| && log[k].at > now - w
    ensures |log| <= k + n
  {
    SpanBehind(log, n, w, now, k);
  }

  /** A full window stays full exactly until its oldest event leaves it. */
  lemma {:induction false} FullUntilOldestLeaves(log: seq<Event>, n: nat, w: int, now: int, t: int)
    requires LogOk(log, now) && Spaced(log, n, w) && n > 0
    requires |Since(log, now - w)| >= n && now <= t
    ensures |Since(log, t - w)| >= n <==> t < Since(log, now - w)[0].at + w
  {
    hide Since, Spaced;
    var k := SinceIsSuffix(log, now - w);
    AtMostN(log, n, w, now, k);
    var j := SinceIsSuffix(log, t - w);
    assert Since(log, now - w)[0] == log[k];
  }

  /** The advertised seconds bracket the moment the oldest event leaves the window. */
  lemma {:induction false} RetryBracketsExpiry(events: seq<Event>, now: int, w: int)
    requires events != [] && events[0].at > now - w
    ensures var s := RetryAfterSeconds(events, now, w);
            s >= 1 && now + 1000 * (s - 1) < events[0].at + w <= now + 1000 * s
  {
    CeilBracket(events[0].at + w - now);
  }

  lemma {:induction false} CeilBracket(x: int)
    requires x > 0
    ensures CeilDiv(x, 1000) >= 1 && 1000 * (CeilDiv(x, 1000) - 1) < x <= 1000 * CeilDiv(x, 1000)
  {
  }

  /** What is active later, with no slot taken in between, was active before. */
  lemma {:induction false} ActiveShrinks(a: seq<Event>, b: seq<Event>, log: seq<Event>, cap: nat, now: int, t: int)
    requires Remembers(a, log, cap, now) && Remembers(b, log, cap, t) && now <= t
    requires forall i :: 0 <= i < |b| ==> b[i].at > t - DAY_MS
    ensures |b| <= |a| && b == a[|a| - |b|..]
  {
    assert |b| > 0 ==> b[0] == log[|log| - |b|];
    assert |b| <= |a|;
    SuffixOfSuffix(log, |log| - |a|, |a| - |b|);
  }

  lemma {:induction false} KeyStaysUnknown(a: seq<Event>, k: nat, key: string)
    requires k <= |a| && !HasKey(a, key)
    ensures !HasKey(a[k..], key)
  {
    forall i | 0 <= i < |a[k..]| ensures a[k..][i].key != key {
      assert a[k + i].key != key;
    }
  }

  /** A refused key is still unknown later if no slot was taken since. */
  lemma {:induction false} RefusedKeyStaysUnknown(before: seq<Event>, later: seq<Event>, log: seq<Event>, cap: nat,
        now: int, t: int, key: string)
    requires ListOk(before, log, cap, now) && ListOk(later, log, cap, t) && now <= t
    requires !HasKey(ActiveEvents(before, now), key)
    ensures !HasKey(ActiveEvents(later, t), key)
  {
    ActiveRemembers(before, log, cap, now, now);
    ActiveRemembers(later, log, cap, t, t);
    var a, b := ActiveEvents(before, now), ActiveEvents(later, t);
    ActiveShrinks(a, b, log, cap, now, t);
    KeyStaysUnknown(a, |a| - |b|, key);
  }

  /** A turn's decision depends only on its key being remembered and on the log's last hour. */
  lemma {:induction false} TurnDecision(t: Trace, key: string, now: int)
    requires TraceOk(t, now)
    ensures var hourly := Since(t.turns, now - HOUR_MS);
            CallDecision(t.state, Call(ModelTurn, key, now)) ==
            if HasKey(ActiveEvents(t.state.modelTurns, now), key) || |hourly| < MODEL_TURNS_PER_HOUR then Accepted
            else Refused(RetryAfterSeconds(hourly, now, HOUR_MS))
  {
    HourSeen(t.state.modelTurns, t.turns, MODEL_TURNS_PER_HOUR, now, now);
  }

  lemma {:induction false} ReportDecision(t: Trace, key: string, now: int)
    requires TraceOk(t, now)
    ensures var hourly, daily := Since(t.reports, now - HOUR_MS), Since(t.reports, now - DAY_MS);
            CallDecision(t.state, Call(ReportSubmission, key, now)) ==
            if HasKey(ActiveEvents(t.state.reports, now), key) then Accepted
            else if |hourly| >= REPORTS_PER_HOUR then Refused(RetryAfterSeconds(hourly, now, HOUR_MS))
            else if |daily| >= REPORTS_PER_DAY then Refused(RetryAfterSeconds(daily, now, DAY_MS))
            else Accepted
  {
    ReportCounts(t, now, now);
  }

  /** Waiting for the advertised time empties a slot of a full window, and no shorter time does. */
  lemma {:induction false} RetryEmptiesSlot(log: seq<Event>, n: nat, w: int, now: int, t: int)
    requires LogOk(log, now) && Spaced(log, n, w) && n > 0
    requires |Since(log, now - w)| >= n && now <= t
    ensures var s := RetryAfterSeconds(Since(log, now - w), now, w);
            && (t >= now + 1000 * s ==> |Since(log, t - w)| < n)
            && (t <= now + 1000 * (s - 1) ==> |Since(log, t - w)| >= n)
  {
    FullUntilOldestLeaves(log, n, w, now, t);
    OldestIsActive(log, now - w);
    RetryBracketsExpiry(Since(log, now - w), now, w);
  }

  lemma {:induction false} TurnRefusalMeans(t: Trace, key: string, now: int)
    requires TraceOk(t, now)
    requires CallDecision(t.state, Call(ModelTurn, key, now)).Refused?
    ensures !HasKey(ActiveEvents(t.state.modelTurns, now), key)
    ensures |Since(t.turns, now - HOUR_MS)| >= MODEL_TURNS_PER_HOUR
    ensures CallDecision(t.state, Call(ModelTurn, key, now))
            == Refused(RetryAfterSeconds(Since(t.turns, now - HOUR_MS), now, HOUR_MS))
  {
    TurnDecision(t, key, now);
  }

  lemma {:induction false} TurnRetry(a: Trace, b: Trace, key: string, now: int, t: int)
    requires TraceOk(a, now) && TraceOk(b, t) && now <= t && a.turns == b.turns
    requires CallDecision(a.state, Call(ModelTurn, key, now)).Refused?
    ensures var s := CallDecision(a.state, Call(ModelTurn, key, now)).retryAfterSeconds;
            var again := CallDecision(b.state, Call(ModelTurn, key, t));
            && (t >= now + 1000 * s ==> again == Accepted)
            && (t <= now + 1000 * (s - 1) ==> again.Refused?)
  {
    TurnRefusalMeans(a, key, now);
    RefusedKeyStaysUnknown(a.state.modelTurns, b.state.modelTurns, a.turns, MODEL_TURNS_PER_HOUR, now, t, key);
    RetryEmptiesSlot(a.turns, MODEL_TURNS_PER_HOUR, HOUR_MS, now, t);
    TurnDecision(b, key, t);
  }

  /** A turn refused with `retryAfterSeconds` is accepted that many seconds later and refused one
      second earlier, if no other turn took a slot meanwhile. */
  lemma {:induction false} TurnRetryExact(calls: seq<Call>, key: string, now: int, later: seq<Call>, t: int)
    requires Chronological(calls) && NotBefore(calls, now)
    requires CallDecision(After(calls).state, Call(ModelTurn, key, now)).Refused?
    requires Chronological(later) && NotBefore(later, t) && now <= t
    requires After(later).turns == After(calls).turns
    ensures var s := CallDecision(After(calls).state, Call(ModelTurn, key, now)).retryAfterSeconds;
            var again := CallDecision(After(later).state, Call(ModelTurn, key, t));
            && (t >= now + 1000 * s ==> again == Accepted)
            && (t <= now + 1000 * (s - 1) ==> again.Refused?)
  {
    HistoryOk(calls, now);
    HistoryOk(later, t);
    TurnRetry(After(calls), After(later), key, now, t);
  }

  lemma {:induction false} OldestIsActive(log: seq<Event>, t: int)
    requires Sorted(log)
    ensures Since(log, t) != [] ==> Since(log, t)[0].at > t
  {
    var k := SinceIsSuffix(log, t);
  }

  // ---------- the decision by the whole history ----------

  /** The events stamped `t`, in stored order. */
  function At(events: seq<Event>, t: int): seq<Event> {
    if events == [] then []
    else
      var last := events[|events| - 1];
      At(events[..|events| - 1], t) + (if last.at == t then [last] else [])
  }

  lemma {:induction false} InsertSorted(sorted: seq<Event>, e: Event)
    requires Sorted(sorted)
    ensures Sorted(Insert(sorted, e)) && |Insert(sorted, e)| == |sorted| + 1
    ensures sorted != [] ==> Insert(sorted, e)[|sorted|].at == Max(e.at, sorted[|sorted| - 1].at)
  {
    if sorted == [] || sorted[|sorted| - 1].at <= e.at {
      InsertBeforeLast(sorted, e);
    } else {
      var front, last := sorted[..|sorted| - 1], sorted[|sorted| - 1];
      SortedFront(sorted);
      InsertSorted(front, e);
      hide Sorted;
      InsertBeforeLast(Insert(front, e), last);
    }
  }

  lemma {:induction false} InsertAt(sorted: seq<Event>, e: Event, t: int)
    requires Sorted(sorted)
    ensures At(Insert(sorted, e), t) == At(sorted, t) + (if e.at == t then [e] else [])
  {
    if sorted == [] || sorted[|sorted| - 1].at <= e.at {
      AtSnoc(sorted, e, t);
    } else {
      var front, last := sorted[..|sorted| - 1], sorted[|sorted| - 1];
      SortedFront(sorted);
      hide Sorted;
      InsertAt(front, e, t);
      AtSnoc(Insert(front, e), last, t);
      NothingAdded(At(front, t));
      NothingAdded(At(front, t) + [e]);
    }
  }

  lemma {:induction false} InsertBeforeLast(front: seq<Event>, last: Event)
    requires Sorted(front) && (front != [] ==> front[|front| - 1].at <= last.at)
    ensures Sorted(front + [last])
  {
  }

  lemma {:induction false} AtSnoc(front: seq<Event>, last: Event, t: int)
    ensures At(front + [last], t) == At(front, t) + (if last.at == t then [last] else [])
  {
    assert (front + [last])[..|front|] == front;
  }

  lemma {:induction false} SortExact(events: seq<Event>, t: int)
    ensures Sorted(SortByTime(events)) && At(SortByTime(events), t) == At(events, t)
  {
    if events != [] {
      SortExact(events[..|events| - 1], t);
      InsertSorted(SortByTime(events[..|events| - 1]), events[|events| - 1]);
      InsertAt(SortByTime(events[..|events| - 1]), events[|events| - 1], t);
    }
  }

  lemma {:induction false} SinceAt(events: seq<Event>, from: int, t: int)
    ensures At(Since(events, from), t) == if t > from then At(events, t) else []
  {
    if events != [] {
      SinceAt(events[..|events| - 1], from, t);
      AtSnoc(Since(events[..|events| - 1], from), events[|events| - 1], t);
      NothingAdded(Since(events[..|events| - 1], from));
    }
  }

  /** Whatever the stored list holds, a call works on the events of the last 24 hours, oldest first, equal
      times in their stored order. */
  lemma {:induction false} ActiveExact(events: seq<Event>, now: int, t: int)
    ensures Sorted(ActiveEvents(events, now))
    ensures At(ActiveEvents(events, now), t) == if t > now - 86_400_000 then At(events, t) else []
  {
    SortExact(Since(events, now - DAY_MS), t);
    SinceAt(events, now - DAY_MS, t);
  }

  /** Up to now the later events are those of a window. */
  lemma {:induction false} SinceIsWindow(log: seq<Event>, w: int, now: int)
    requires forall i :: 0 <= i < |log| ==> log[i].at <= now
    ensures Since(log, now - w) == InWindow(log, now, w)
  {
    if log != [] {
      SinceIsWindow(log[..|log| - 1], w, now);
    }
  }

  /** Whether a key took a slot less than 24 hours ago, as one of the last `n` that took one. */
  predicate UsedLately(log: seq<Event>, n: nat, key: string, now: int) {
    exists i :: 0 <= i < |log| && i >= |log| - n && log[i].key == key && log[i].at > now - 86_400_000
  }

  lemma {:induction false} KnownIsUsed(active: seq<Event>, log: seq<Event>, cap: nat, key: string, now: int)
    requires Remembers(active, log, cap, now) && HasKey(active, key)
    requires forall i :: 0 <= i < |active| ==> active[i].at > now - DAY_MS
    ensures UsedLately(log, cap, key, now)
  {
    var i :| 0 <= i < |active| && active[i].key == key;
    var j := |log| - |active| + i;
    assert log[j] == active[i];
  }

  lemma {:induction false} UsedIsKnown(active: seq<Event>, log: seq<Event>, cap: nat, key: string, now: int)
    requires Remembers(active, log, cap, now) && UsedLately(log, cap, key, now)
    ensures HasKey(active, key)
  {
    var i :| 0 <= i < |log| && i >= |log| - cap && log[i].key == key && log[i].at > now - 86_400_000;
    var d := |log| - |active|;
    assert i >= d;
    assert active[i - d] == log[i];
  }

  /** The truncated list knows the keys of the last `cap` slots of the day. */
  lemma {:induction false} KnownExact(stored: seq<Event>, log: seq<Event>, cap: nat, key: string, now: int)
    requires ListOk(stored, log, cap, now)
    ensures HasKey(ActiveEvents(stored, now), key) <==> UsedLately(log, cap, key, now)
  {
    ActiveRemembers(stored, log, cap, now, now);
    hide Remembers, HasKey, UsedLately, ActiveEvents, LogOk, Sorted;
    if HasKey(ActiveEvents(stored, now), key) {
      KnownIsUsed(ActiveEvents(stored, now), log, cap, key, now);
    }
    if UsedLately(log, cap, key, now) {
      UsedIsKnown(ActiveEvents(stored, now), log, cap, key, now);
    }
  }

  lemma {:induction false} NextIs(calls: seq<Call>, call: Call)
    ensures After(calls + [call]) == NextTrace(After(calls), call)
  {
    assert (calls + [call])[..|calls|] == calls;
  }

  /** A turn is accepted exactly when its key took one of the last 30 slots within the day, which costs
      nothing, or when fewer than 30 slots were taken within the hour, and then it takes one. */
  lemma {:induction false} TurnExact(calls: seq<Call>, key: string, now: int)
    requires Chronological(calls) && NotBefore(calls, now)
    ensures var t, call := After(calls), Call(ModelTurn, key, now);
            var known, free := UsedLately(t.turns, 30, key, now), |InWindow(t.turns, now, 3_600_000)| < 30;
            && (CallDecision(t.state, call) == Accepted <==> known || free)
            && After(calls + [call]).turns == t.turns + (if !known && free then [Event(key, now)] else [])
            && After(calls + [call]).reports == t.reports
  {
    hide ActiveEvents, Since, Spaced, HasKey, UsedLately, InWindow, After;
    var t := After(calls);
    HistoryOk(calls, now);
    NextIs(calls, Call(ModelTurn, key, now));
    NextTraceLists(t, Call(ModelTurn, key, now));
    TurnDecision(t, key, now);
    SinceIsWindow(t.turns, HOUR_MS, now);
    KnownExact(t.state.modelTurns, t.turns, MODEL_TURNS_PER_HOUR, key, now);
  }

  /** A report is accepted exactly when its key took one of the last 20 slots within the day, which costs
      nothing, or when fewer than 5 slots were taken within the hour and fewer than 20 within the day. */
  lemma {:induction false} ReportExact(calls: seq<Call>, key: string, now: int)
    requires Chronological(calls) && NotBefore(calls, now)
    ensures var t, call := After(calls), Call(ReportSubmission, key, now);
            var known := UsedLately(t.reports, 20, key, now);
            var free := |InWindow(t.reports, now, 3_600_000)| < 5 && |InWindow(t.reports, now, 86_400_000)| < 20;
            && (CallDecision(t.state, call) == Accepted <==> known || free)
            && After(calls + [call]).reports == t.reports + (if !known && free then [Event(key, now)] else [])
            && After(calls + [call]).turns == t.turns
  {
    hide ActiveEvents, Since, Spaced, HasKey, UsedLately, InWindow, After;
    var t := After(calls);
    HistoryOk(calls, now);
    NextIs(calls, Call(ReportSubmission, key, now));
    NextTraceLists(t, Call(ReportSubmission, key, now));
    ReportDecision(t, key, now);
    SinceIsWindow(t.reports, HOUR_MS, now);
    SinceIsWindow(t.reports, DAY_MS, now);
    KnownExact(t.state.reports, t.reports, REPORTS_PER_DAY, key, now);
  }

  predicate HourlyReportsFull(t: Trace, now: int) {
    |Since(t.reports, now - HOUR_MS)| >= REPORTS_PER_HOUR
  }

  predicate DailyReportsFull(t: Trace, now: int) {
    |Since(t.reports, now - DAY_MS)| >= REPORTS_PER_DAY
  }

  /** A report whose key is not remembered is accepted exactly when neither window is full. */
  lemma {:induction false} UnknownReportDecision(t: Trace, key: string, now: int)
    requires TraceOk(t, now) && !HasKey(ActiveEvents(t.state.reports, now), key)
    ensures CallDecision(t.state, Call(ReportSubmission, key, now)) == Accepted
            <==> !HourlyReportsFull(t, now) && !DailyReportsFull(t, now)
  {
    ReportDecision(t, key, now);
  }

  lemma {:induction false} ReportRefusalMeans(t: Trace, key: string, now: int)
    requires TraceOk(t, now)
    requires CallDecision(t.state, Call(ReportSubmission, key, now)).Refused?
    ensures !HasKey(ActiveEvents(t.state.reports, now), key)
    ensures HourlyReportsFull(t, now) || DailyReportsFull(t, now)
    ensures CallDecision(t.state, Call(ReportSubmission, key, now)) ==
            if HourlyReportsFull(t, now) then Refused(RetryAfterSeconds(Since(t.reports, now - HOUR_MS), now, HOUR_MS))
            else Refused(RetryAfterSeconds(Since(t.reports, now - DAY_MS), now, DAY_MS))
  {
    ReportDecision(t, key, now);
  }

  lemma {:induction false} ReportRetryHourly(a: Trace, b: Trace, key: string, now: int, t: int)
    requires TraceOk(a, now) && TraceOk(b, t) && now <= t && a.reports == b.reports
    requires HourlyReportsFull(a, now) && !HasKey(ActiveEvents(b.state.reports, t), key)
    ensures var s := RetryAfterSeconds(Since(a.reports, now - HOUR_MS), now, HOUR_MS);
            && (t <= now + 1000 * (s - 1) ==> CallDecision(b.state, Call(ReportSubmission, key, t)).Refused?)
            && (t >= now + 1000 * s ==> !HourlyReportsFull(b, t))
  {
    RetryEmptiesSlot(a.reports, REPORTS_PER_HOUR, HOUR_MS, now, t);
    ReportDecision(b, key, t);
  }

  lemma {:induction false} ReportRetryDaily(a: Trace, b: Trace, key: string, now: int, t: int)
    requires TraceOk(a, now) && TraceOk(b, t) && now <= t && a.reports == b.reports
    requires !HourlyReportsFull(a, now) && !HasKey(ActiveEvents(b.state.reports, t), key)
    requires DailyReportsFull(a, now)
    ensures var s := RetryAfterSeconds(Since(a.reports, now - DAY_MS), now, DAY_MS);
            && (t <= now + 1000 * (s - 1) ==> CallDecision(b.state, Call(ReportSubmission, key, t)).Refused?)
            && (t >= now + 1000 * s ==> CallDecision(b.state, Call(ReportSubmission, key, t)) == Accepted)
            && !HourlyReportsFull(b, t)
  {
    RetryEmptiesSlot(a.reports, REPORTS_PER_DAY, DAY_MS, now, t);
    SinceShrinks(a.reports, now - HOUR_MS, t - HOUR_MS);
    ReportDecision(b, key, t);
  }

  /** A daily report refusal is exact in the same way. After an hourly one the hourly limit has lifted by
      the advertised time and not a second earlier; the retry is then accepted exactly when the day
      before it holds fewer than 20 reports. */
  lemma {:induction false} ReportRetryExact(calls: seq<Call>, key: string, now: int, later: seq<Call>, t: int)
    requires Chronological(calls) && NotBefore(calls, now)
    requires CallDecision(After(calls).state, Call(ReportSubmission, key, now)).Refused?
    requires Chronological(later) && NotBefore(later, t) && now <= t
    requires After(later).reports == After(calls).reports
    ensures var s := CallDecision(After(calls).state, Call(ReportSubmission, key, now)).retryAfterSeconds;
            var again := CallDecision(After(later).state, Call(ReportSubmission, key, t));
            && (t <= now + 1000 * (s - 1) ==> again.Refused?)
            && (t >= now + 1000 * s ==> !HourlyReportsFull(After(later), t))
            && (t >= now + 1000 * s ==> (again == Accepted <==> !DailyReportsFull(After(later), t)))
            && (t >= now + 1000 * s && !HourlyReportsFull(After(calls), now) ==> again == Accepted)
  {
    var a, b := After(calls), After(later);
    HistoryOk(calls, now);
    HistoryOk(later, t);
    ReportRefusalMeans(a, key, now);
    RefusedKeyStaysUnknown(a.state.reports, b.state.reports, a.reports, REPORTS_PER_DAY, now, t, key);
    UnknownReportDecision(b, key, t);
    if HourlyReportsFull(a, now) {
      ReportRetryHourly(a, b, key, now, t);
    } else {
      ReportRetryDaily(a, b, key, now, t);
    }
  }

  lemma {:induction false} SinceShrinks(log: seq<Event>, a: int, b: int)
    requires a <= b
    ensures |Since(log, b)| <= |Since(log, a)|
  {
    if log != [] {
      SinceShrinks(log[..|log| - 1], a, b);
    }
  }
}
