/**
 One ledger sweep and the alarm pass around it (src/agent/think-thread-agent.ts:4784-4794,
 5082-5216, 5399-5559), run without interleaving.
 */
module WorkSweep {
  import opened Wrappers
  import opened WorkLedger

  const DEFAULT_MONITOR_POLL_INTERVAL_MS := 60_000

  /** What the outside world does during one sweep. */
  datatype Surroundings = Surroundings(
    current: CurrentGeneration,
    throwing: set<Id>,       // deliveries that throw
    watched: set<Id>,        // process rows with a live watcher
    now: int,
    stampedAt: int
  )

  function Stamp(row: WorkRow, id: Id, env: Surroundings): WorkRow {
    if id in env.throwing then row else row.(deliveredAt := Some(env.stampedAt))
  }

  predicate Retried(row: WorkRow, id: Id, env: Surroundings) {
    Owed(row) && !(row.kind.Process? && id in env.watched)
  }

  /** What one sweep makes of one row. */
  function Swept(row: WorkRow, id: Id, env: Surroundings): WorkRow {
    if Open(row) then
      match Classify(row, env.current, env.now)
      case Alive => row
      case Gone(outcome, reason) => Stamp(row.(terminal := Some(Terminal(outcome, reason, env.now))), id, env)
    else if Retried(row, id, env) then Stamp(row, id, env)
    else row
  }

  /** Whether the sweep tells the model about a row. */
  predicate Tells(row: WorkRow, id: Id, env: Surroundings) {
    id !in env.throwing && (Retried(row, id, env) || (Open(row) && Classify(row, env.current, env.now).Gone?))
  }

  /** A sweep with nothing open and nothing owed returns before pruning. */
  predicate NothingToDo(rows: Ledger) {
    OpenIds(rows) == {} && OwedIds(rows) == {}
  }

  function AfterSweep(rows: Ledger, env: Surroundings): Ledger {
    if NothingToDo(rows) then rows
    else Pruned(map id | id in rows :: Swept(rows[id], id, env), env.now - WORK_ROW_RETENTION_MS)
  }

  /** `rows` with the listed ids swept and every other row as it was. */
  ghost predicate SweptSoFar(rows: Ledger, before: Ledger, done: set<Id>, env: Surroundings) {
    && rows.Keys == before.Keys
    && forall id :: id in before ==> rows[id] == if id in done then Swept(before[id], id, env) else before[id]
  }

  ghost predicate ToldSoFar(told: seq<Id>, before: Ledger, done: set<Id>, env: Surroundings) {
    NoDuplicates(told) && forall id :: id in told <==> id in done && id in before && Tells(before[id], id, env)
  }

  /** What a sweep that threw leaves: a part of the open rows swept, or all of them and a part of the owed. */
  ghost predicate CutShort(rows: Ledger, before: Ledger, done: set<Id>, env: Surroundings) {
    && SweptSoFar(rows, before, done, env)
    && (done <= OpenIds(before) || (OpenIds(before) <= done && done <= OpenIds(before) + OwedIds(before)))
  }

  /** The sweep has more rows to visit than get their turn, or just as many and then throws in pruning. */
  predicate SweepThrows(before: Ledger, stop: Option<nat>) {
    stop.Some? && !NothingToDo(before) && stop.value <= |OpenIds(before)| + |OwedIds(before)|
  }

  class Thread {
    const ledger: WorkLedgerStore
    var told: seq<Id>
    var alarm: Option<int>

    constructor (ledger: WorkLedgerStore)
      ensures this.ledger == ledger && told == [] && alarm == None
    {
      this.ledger, told, alarm := ledger, [], None;
    }

    /** Enqueue the completion, then stamp the row. False when the delivery throws. */
    method DeliverWorkTerminal(id: Id, env: Surroundings) returns (delivered: bool)
      modifies this`told, ledger
      ensures delivered == (id !in env.throwing)
      ensures told == old(told) + (if delivered then [id] else [])
      ensures ledger.rows == if delivered then MarkedDelivered(old(ledger.rows), id, env.stampedAt)
              else old(ledger.rows)
    {
      if id in env.throwing {
        return false;
      }
      told := told + [id];
      var claimed := ledger.MarkDelivered(id, env.stampedAt);
      return true;
    }

    method TerminalizeWork(id: Id, terminal: Terminal, env: Surroundings) returns (closed: bool)
      modifies this`told, ledger
      ensures closed == Closes(old(ledger.rows), id)
      ensures told == old(told) + (if closed && id !in env.throwing then [id] else [])
      ensures ledger.rows ==
        if closed && id !in env.throwing
        then MarkedDelivered(Terminalized(old(ledger.rows), id, terminal), id, env.stampedAt)
        else Terminalized(old(ledger.rows), id, terminal)
    {
      closed := ledger.Terminalize(id, terminal);
      if closed {
        var delivered := DeliverWorkTerminal(id, env);
      }
    }

    /** The classification pass's work on one row, classified as it was listed. */
    method ReapRow(id: Id, row: WorkRow, env: Surroundings)
      requires id in ledger.rows && ledger.rows[id] == row && Open(row) && row.deliveredAt.None?
      modifies this`told, ledger
      ensures ledger.rows == old(ledger.rows)[id := Swept(row, id, env)]
      ensures told == old(told) + Telling(row, id, env)
    {
      var result := Classify(row, env.current, env.now);
      if result.Gone? {
        var closed := TerminalizeWork(id, Terminal(result.outcome, result.reason, env.now), env);
      }
    }

    /** The retry pass's work on one row. */
    method RetryRow(id: Id, row: WorkRow, env: Surroundings)
      requires id in ledger.rows && ledger.rows[id] == row && Owed(row)
      modifies this`told, ledger
      ensures ledger.rows == old(ledger.rows)[id := Swept(row, id, env)]
      ensures told == old(told) + Telling(row, id, env)
    {
      if !(row.kind.Process? && id in env.watched) {
        var delivered := DeliverWorkTerminal(id, env);
      }
    }

    /** The classification pass; `stop` says before which row it throws, if it does. */
    method ReapOpen(todo: seq<Id>, env: Surroundings, stop: Option<nat>)
        returns (threw: bool, ghost added: seq<Id>, ghost done: set<Id>)
      requires Consistent(ledger.rows) && Lists(todo, OpenIds(ledger.rows))
      modifies this`told, ledger
      ensures threw == (stop.Some? && stop.value < |todo|)
      ensures threw ==> |done| == stop.value
      ensures told == old(told) + added && done <= OpenIds(old(ledger.rows))
      ensures !threw ==> done == OpenIds(old(ledger.rows))
      ensures SweptSoFar(ledger.rows, old(ledger.rows), done, env) && ToldSoFar(added, old(ledger.rows), done, env)
    {
      hide SweptSoFar, ToldSoFar, Swept, Telling, PartlyDone;
      var rows := ledger.rows;
      added, done := [], {};
      NothingSwept(rows, env);
      NothingDone(todo);
      for i := 0 to |todo|
        invariant stop.Some? ==> i <= stop.value
        invariant PartlyDone(todo, i, done)
        invariant told == old(told) + added
        invariant SweptSoFar(ledger.rows, rows, done, env) && ToldSoFar(added, rows, done, env)
      {
        if stop == Some(i) {
          DoneListed(todo, i, done, OpenIds(rows));
          return true, added, done;
        }
        var id := todo[i];
        ListedNext(todo, i, done, OpenIds(rows));
        OneMoreSwept(ledger.rows, rows, done, id, env);
        OneMoreTold(added, rows, done, id, env);
        ReapRow(id, rows[id], env);
        added := added + Telling(rows[id], id, env);
        done := done + {id};
      }
      AllDone(todo, done, OpenIds(rows));
      threw := false;
    }

    /** The retry pass, likewise; asking for a row's watcher is what can throw in it. */
    method RetryOwed(owed: seq<Id>, rows: Ledger, ghost already: set<Id>, ghost earlier: seq<Id>, env: Surroundings,
                     stop: Option<nat>)
        returns (threw: bool, ghost added: seq<Id>, ghost done: set<Id>)
      requires Lists(owed, OwedIds(rows)) && already == OpenIds(rows)
      requires SweptSoFar(ledger.rows, rows, already, env) && ToldSoFar(earlier, rows, already, env)
      modifies this`told, ledger
      ensures threw == (stop.Some? && stop.value < |owed|)
      ensures threw ==> |done| == stop.value
      ensures told == old(told) + added && done <= OwedIds(rows)
      ensures !threw ==> done == OwedIds(rows)
      ensures SweptSoFar(ledger.rows, rows, already + done, env)
      ensures ToldSoFar(earlier + added, rows, already + done, env)
    {
      hide SweptSoFar, ToldSoFar, Swept, Telling, PartlyDone, OpenIds, OwedIds;
      added, done := [], {};
      NothingDone(owed);
      assert already + done == already && earlier + added == earlier;
      for i := 0 to |owed|
        invariant stop.Some? ==> i <= stop.value
        invariant PartlyDone(owed, i, done)
        invariant told == old(told) + added
        invariant SweptSoFar(ledger.rows, rows, already + done, env)
        invariant ToldSoFar(earlier + added, rows, already + done, env)
      {
        if stop == Some(i) {
          DoneListed(owed, i, done, OwedIds(rows));
          return true, added, done;
        }
        var id := owed[i];
        ListedNext(owed, i, done, OwedIds(rows));
        OwedApart(rows, id);
        OneMoreSwept(ledger.rows, rows, already + done, id, env);
        OneMoreTold(earlier + added, rows, already + done, id, env);
        RetryRow(id, rows[id], env);
        JoinDone(already, done, id);
        Regroup(earlier, added, Telling(rows[id], id, env));
        added := added + Telling(rows[id], id, env);
        done := done + {id};
      }
      AllDone(owed, done, OwedIds(rows));
      threw := false;
    }

    /** Both passes over the listed rows; true when it throws in one of them or goes on to throw in pruning. */
    method SweepListed(todo: seq<Id>, owed: seq<Id>, env: Surroundings, stop: Option<nat>)
        returns (threw: bool, ghost added: seq<Id>, ghost done: set<Id>)
      requires Consistent(ledger.rows)
      requires Lists(todo, OpenIds(ledger.rows)) && Lists(owed, OwedIds(ledger.rows))
      modifies this`told, ledger
      ensures threw == (stop.Some? && stop.value <= |todo| + |owed|)
      ensures threw ==> CutShort(ledger.rows, old(ledger.rows), done, env) && |done| == stop.value
      ensures !threw ==> done == OpenIds(old(ledger.rows)) + OwedIds(old(ledger.rows))
      ensures !threw ==> SweptSoFar(ledger.rows, old(ledger.rows), done, env)
      ensures told == old(told) + added && ToldSoFar(added, old(ledger.rows), done, env)
    {
      hide SweptSoFar, ToldSoFar, Swept, CutShort, OpenIds, OwedIds, Consistent;
      var rows := ledger.rows;
      ghost var second, retried;
      ListsCount(todo, OpenIds(rows));
      ListsCount(owed, OwedIds(rows));
      threw, added, done := ReapOpen(todo, env, stop);
      if threw {
        CutEarly(ledger.rows, rows, done, env);
        return;
      }
      var left := if stop.Some? then Some(stop.value - |todo|) else None;
      threw, second, retried := RetryOwed(owed, rows, OpenIds(rows), added, env, left);
      added, done := added + second, OpenIds(rows) + retried;
      CutLate(ledger.rows, rows, retried, env);
      threw := threw || left == Some(|owed|);
    }

    /** A sweep of which at most `stop` rows get their turn: it throws before the next one, or before
        pruning when that many were all. Without a throw it sweeps exactly the rows `AfterSweep` says;
        with one, some of the open rows, or all of them and some of the owed ones. Either way it enqueues
        each completion it owes once. */
    method RunWorkLedgerSweep(env: Surroundings, stop: Option<nat>)
        returns (threw: bool, ghost added: seq<Id>, ghost done: set<Id>)
      requires Consistent(ledger.rows)
      modifies this`told, ledger
      ensures threw == SweepThrows(old(ledger.rows), stop)
      ensures threw ==> CutShort(ledger.rows, old(ledger.rows), done, env) && |done| == stop.value
      ensures !threw ==> ledger.rows == AfterSweep(old(ledger.rows), env) && done == old(ledger.rows).Keys
      ensures told == old(told) + added && ToldSoFar(added, old(ledger.rows), done, env)
    {
      hide SweptSoFar, ToldSoFar, Swept, CutShort, OpenIds, OwedIds, Consistent;
      ghost var rows := ledger.rows;
      var todo := ledger.ListOpen();
      var owed := ledger.ListUndelivered();
      ListsCount(todo, OpenIds(rows));
      ListsCount(owed, OwedIds(rows));
      if todo == [] && owed == [] {
        IdleTellsNothing(rows, env);
        return false, [], rows.Keys;
      }
      threw, added, done := SweepListed(todo, owed, env, stop);
      if threw {
        return;
      }
      RestUntouched(ledger.rows, rows, done, added, env);
      AllSwept(ledger.rows, rows, env);
      ledger.Prune(env.now - WORK_ROW_RETENTION_MS);
      done := rows.Keys;
    }

    method WorkHorizon(now: int) returns (horizon: Option<int>)
      ensures horizon.None? <==> forall id :: id in ledger.rows ==>
                                   ledger.rows[id].terminal.Some? && ledger.rows[id].deliveredAt.Some?
      ensures horizon.Some? ==> IsFallback(ledger.rows, None, now, horizon.value)
    {
      var openHorizon := ledger.NextSweepAt();
      var total := ledger.CountUndelivered();
      OwedCount(ledger.rows);
      var retryHorizon := if total > 0 then Some(now + WORK_DELIVERY_RETRY_MS) else None;
      if openHorizon.None? {
        return retryHorizon;
      }
      if retryHorizon.None? {
        return openHorizon;
      }
      return Some(Min(openHorizon.value, retryHorizon.value));
    }

    /** The alarm pass: tick, sweep, and a fallback that arms only when the tick did not. */
    method RunSandboxEviction(pass: Pass)
      requires Consistent(ledger.rows)
      modifies this, ledger
      ensures if SweepThrows(old(ledger.rows), pass.sweepStop)
              then exists done :: CutShort(ledger.rows, old(ledger.rows), done, pass.env)
                                  && |done| == pass.sweepStop.value
              else ledger.rows == AfterSweep(old(ledger.rows), pass.env)
      ensures pass.resolved && pass.tickArms.Some? ==> alarm == pass.tickArms
      ensures !(pass.resolved && pass.tickArms.Some?) ==>
                var watcher := if pass.resolved then pass.watcherWake else None;
                if pass.scheduleFails || (NothingToDo(ledger.rows) && watcher.None?) then alarm == old(alarm)
                else alarm.Some? && IsFallback(ledger.rows, watcher, pass.now, alarm.value)
    {
      hide AfterSweep, CutShort, ToldSoFar, Consistent;
      var armed := false;
      if pass.resolved && pass.tickArms.Some? {
        alarm := pass.tickArms;
        armed := true;
      }
      ghost var added, done;
      var threw;
      threw, added, done := RunWorkLedgerSweep(pass.env, pass.sweepStop);
      if armed {
        return;
      }
      var raw := if pass.resolved then pass.watcherWake else None;
      var work := WorkHorizon(pass.now);
      var watcher :=
        if raw.None? then None
        else if raw.value <= pass.now then Some(pass.now + DEFAULT_MONITOR_POLL_INTERVAL_MS)
        else raw;
      var horizon := if work.None? || (watcher.Some? && watcher.value < work.value) then watcher else work;
      if horizon.Some? && !pass.scheduleFails {
        alarm := horizon;
      }
    }
  }

  /** How one alarm pass goes, stage by stage. */
  datatype Pass = Pass(
    resolved: bool,              // the compute service resolved
    tickArms: Option<int>,       // the alarm the tick set before finishing or throwing
    sweepStop: Option<nat>,      // the sweep throws once this many rows had their turn
    env: Surroundings,
    watcherWake: Option<int>,    // the watchers' next poll, when the service resolved
    now: int,
    scheduleFails: bool
  )

  /** A watcher stuck in the past is pushed a full poll interval out. */
  function WatcherHorizon(wake: int, now: int): int {
    if wake <= now then now + DEFAULT_MONITOR_POLL_INTERVAL_MS else wake
  }

  /** `h` is the least of the work horizon and the watchers' next poll, over those that exist. */
  ghost predicate IsFallback(rows: Ledger, watcher: Option<int>, now: int, h: int) {
    && (forall id :: id in OpenIds(rows) ==> h <= Horizon(rows[id]))
    && (OwedIds(rows) != {} ==> h <= now + WORK_DELIVERY_RETRY_MS)
    && (watcher.Some? ==> h <= WatcherHorizon(watcher.value, now))
    && ((exists id :: id in OpenIds(rows) && Horizon(rows[id]) == h)
        || (OwedIds(rows) != {} && h == now + WORK_DELIVERY_RETRY_MS)
        || (watcher.Some? && h == WatcherHorizon(watcher.value, now)))
  }

  /** An open row has nothing delivered yet. */
  predicate Consistent(rows: Ledger) {
    forall id :: id in rows && Open(rows[id]) ==> rows[id].deliveredAt.None?
  }

  function Telling(row: WorkRow, id: Id, env: Surroundings): seq<Id> {
    if Tells(row, id, env) then [id] else []
  }

  ghost predicate PartlyDone(ids: seq<Id>, i: nat, done: set<Id>) {
    && i <= |ids| && |done| == i
    && (forall j :: 0 <= j < i ==> ids[j] in done)
    && (forall id :: id in done ==> id in ids[..i])
  }

  lemma {:induction false} NothingDone(ids: seq<Id>)
    ensures PartlyDone(ids, 0, {})
  {
  }

  lemma {:induction false} NothingSwept(rows: Ledger, env: Surroundings)
    ensures SweptSoFar(rows, rows, {}, env) && ToldSoFar([], rows, {}, env)
  {
  }

  /** An owed row is there, and is not open. */
  lemma {:induction false} OwedApart(rows: Ledger, id: Id)
    requires id in OwedIds(rows)
    ensures id in rows && Owed(rows[id]) && id !in OpenIds(rows)
  {
  }

  lemma {:induction false} JoinDone(already: set<Id>, done: set<Id>, id: Id)
    ensures already + (done + {id}) == already + done + {id}
  {
  }

  lemma {:induction false} DoneListed(ids: seq<Id>, i: nat, done: set<Id>, all: set<Id>)
    requires Lists(ids, all) && PartlyDone(ids, i, done)
    ensures done <= all && |done| == i
  {
    forall id | id in done ensures id in all {
      assert id in ids[..i];
    }
  }

  lemma {:induction false} ListedNext(ids: seq<Id>, i: nat, done: set<Id>, all: set<Id>)
    requires Lists(ids, all) && i < |ids| && PartlyDone(ids, i, done)
    ensures ids[i] in all && ids[i] !in done
    ensures PartlyDone(ids, i + 1, done + {ids[i]})
  {
    assert ids[..i + 1] == ids[..i] + [ids[i]];
    assert ids[i] !in ids[..i];
  }

  lemma {:induction false} AllDone(ids: seq<Id>, done: set<Id>, all: set<Id>)
    requires Lists(ids, all) && PartlyDone(ids, |ids|, done)
    ensures done == all
  {
    assert ids[..|ids|] == ids;
  }

  lemma {:induction false} OneMoreSwept(rows: Ledger, before: Ledger, done: set<Id>, id: Id, env: Surroundings)
    requires SweptSoFar(rows, before, done, env) && id in before && id !in done
    ensures id in rows && rows[id] == before[id]
    ensures SweptSoFar(rows[id := Swept(before[id], id, env)], before, done + {id}, env)
  {
  }

  lemma {:induction false} OneMoreTold(told: seq<Id>, before: Ledger, done: set<Id>, id: Id, env: Surroundings)
    requires ToldSoFar(told, before, done, env) && id in before && id !in done
    ensures ToldSoFar(told + Telling(before[id], id, env), before, done + {id}, env)
  {
  }

  lemma {:induction false} CutEarly(rows: Ledger, before: Ledger, done: set<Id>, env: Surroundings)
    requires SweptSoFar(rows, before, done, env) && done <= OpenIds(before)
    ensures CutShort(rows, before, done, env)
  {
  }

  lemma {:induction false} CutLate(rows: Ledger, before: Ledger, retried: set<Id>, env: Surroundings)
    requires SweptSoFar(rows, before, OpenIds(before) + retried, env) && retried <= OwedIds(before)
    ensures CutShort(rows, before, OpenIds(before) + retried, env)
    ensures |OpenIds(before) + retried| == |OpenIds(before)| + |retried|
  {
    assert OpenIds(before) !! retried;
  }

  lemma {:induction false} ListsCount(ids: seq<Id>, all: set<Id>)
    requires Lists(ids, all)
    ensures |ids| == |all|
  {
    if ids == [] {
      assert all == {};
    } else {
      var front, last := ids[..|ids| - 1], ids[|ids| - 1];
      assert ids == front + [last];
      assert forall i :: 0 <= i < |front| ==> front[i] == ids[i];
      ListsCount(front, all - {last});
    }
  }

  lemma {:induction false} AllSwept(rows: Ledger, before: Ledger, env: Surroundings)
    requires SweptSoFar(rows, before, before.Keys, env)
    ensures rows == map id | id in before :: Swept(before[id], id, env)
  {
  }

  lemma {:induction false} IdleTellsNothing(rows: Ledger, env: Surroundings)
    requires OpenIds(rows) == {} && OwedIds(rows) == {}
    ensures ToldSoFar([], rows, rows.Keys, env)
  {
    forall id | id in rows ensures !Tells(rows[id], id, env) {
      assert id !in OpenIds(rows) && id !in OwedIds(rows);
    }
  }

  /** Rows neither open nor owed are left alone, so sweeping the listed ones sweeps them all. */
  lemma {:induction false} RestUntouched(rows: Ledger, before: Ledger, done: set<Id>, told: seq<Id>, env: Surroundings)
    requires SweptSoFar(rows, before, done, env) && ToldSoFar(told, before, done, env)
    requires OpenIds(before) + OwedIds(before) <= done
    ensures SweptSoFar(rows, before, before.Keys, env) && ToldSoFar(told, before, before.Keys, env)
  {
    forall id | id in before && id !in done
      ensures Swept(before[id], id, env) == before[id] && !Tells(before[id], id, env)
    {
      assert id !in OpenIds(before) && id !in OwedIds(before);
    }
  }

  // ---------- what a sweep achieves ----------

  /** How a sweep at `now` closes an open row that no reset reached. */
  predicate TimedOut(row: WorkRow, after: WorkRow, now: int) {
    after.terminal ==
    if now > row.deadlineAt then Some(Terminal(Timeout, WatchTimeout, now))
    else if now > row.lastAliveAt + row.staleAfterMs then Some(Terminal(Fault, NoLiveness, now))
    else None
  }

  /** Knowing the generation, a sweep faults exactly the open rows of another one as reset, and treats the
      others by their deadline and silence. */
  lemma {:induction false} SweepWhenKnown(rows: Ledger, env: Surroundings, id: Id, g: string)
    requires id in rows && rows[id].terminal.None? && env.current == KnownGeneration(g)
    ensures id in AfterSweep(rows, env)
    ensures var row, after := rows[id], AfterSweep(rows, env)[id];
            if row.generation != "unknown" && row.generation != g
            then after.terminal == Some(Terminal(Fault, SandboxReset, env.now))
            else TimedOut(row, after, env.now)
  {
    SweptOpenRow(rows, env, id);
    ResetWhenKnown(rows[id], g, env.now);
    ClassifiedByTimeOr(rows[id], env);
  }

  lemma {:induction false} SweepWhenUnknown(rows: Ledger, env: Surroundings, id: Id)
    requires id in rows && rows[id].terminal.None? && env.current == UnknownGeneration
    ensures id in AfterSweep(rows, env) && TimedOut(rows[id], AfterSweep(rows, env)[id], env.now)
  {
    SweptOpenRow(rows, env, id);
    NoResetWhenUnknown(rows[id], env.now);
    ClassifiedByTimeOr(rows[id], env);
  }

  /** With the sandbox seen absent it faults the open rows that started before that. */
  lemma {:induction false} SweepWhenAbsent(rows: Ledger, env: Surroundings, id: Id, t: int)
    requires id in rows && rows[id].terminal.None? && env.current == AbsentSince(t)
    ensures id in AfterSweep(rows, env)
    ensures var row, after := rows[id], AfterSweep(rows, env)[id];
            if row.startedAt < t then after.terminal == Some(Terminal(Fault, SandboxReset, env.now))
            else TimedOut(row, after, env.now)
  {
    SweptOpenRow(rows, env, id);
    ResetWhenAbsent(rows[id], t, env.now);
    ClassifiedByTimeOr(rows[id], env);
  }

  /** An open row stays in the table through a sweep, and takes the terminal it is classified with. */
  lemma {:induction false} SweptOpenRow(rows: Ledger, env: Surroundings, id: Id)
    requires id in rows && rows[id].terminal.None?
    ensures id in AfterSweep(rows, env)
    ensures AfterSweep(rows, env)[id].terminal ==
            match Classify(rows[id], env.current, env.now)
            case Alive => None
            case Gone(outcome, reason) => Some(Terminal(outcome, reason, env.now))
  {
    assert id in OpenIds(rows);
  }

  lemma {:induction false} ClassifiedByTimeOr(row: WorkRow, env: Surroundings)
    requires row.terminal.None?
    ensures var c := Classify(row, env.current, env.now);
            || c == Gone(Fault, SandboxReset)
            || (env.now > row.deadlineAt && c == Gone(Timeout, WatchTimeout))
            || (env.now <= row.deadlineAt && env.now > row.lastAliveAt + row.staleAfterMs
                && c == Gone(Fault, NoLiveness))
            || (env.now <= row.deadlineAt && env.now <= row.lastAliveAt + row.staleAfterMs && c == Alive)
  {
    if Classify(row, env.current, env.now) != Gone(Fault, SandboxReset) {
      ClassifiedByTime(row, env.current, env.now);
    }
  }

  /** The sweep tells the model about exactly the rows it closes and the owed ones no live watcher speaks
      for, unless the delivery throws; and those are the rows it stamps. */
  lemma {:induction false} TellsExactly(rows: Ledger, env: Surroundings, added: seq<Id>, id: Id)
    requires ToldSoFar(added, rows, rows.Keys, env) && Consistent(rows)
    ensures id in added <==>
              && id in rows && id !in env.throwing && rows[id].deliveredAt.None?
              && if rows[id].terminal.None?
                 then id in AfterSweep(rows, env) && AfterSweep(rows, env)[id].terminal.Some?
                 else !(rows[id].kind.Process? && id in env.watched)
    ensures id in AfterSweep(rows, env) && AfterSweep(rows, env)[id].deliveredAt.Some? ==>
              AfterSweep(rows, env)[id].deliveredAt
              == if id in added then Some(env.stampedAt) else rows[id].deliveredAt
    ensures id in added && id in AfterSweep(rows, env) ==>
              AfterSweep(rows, env)[id].deliveredAt == Some(env.stampedAt)
  {
    if id in rows {
      assert rows[id].terminal.None? ==> id in OpenIds(rows);
      assert Owed(rows[id]) ==> id in OwedIds(rows);
      if rows[id].terminal.None? {
        SweptOpenRow(rows, env, id);
      }
    }
  }

  /** A sweep drops exactly the rows told and terminated more than a day before, and none when nothing is open
      or owed. */
  lemma {:induction false} SweepDropsExactly(rows: Ledger, env: Surroundings, id: Id)
    requires id in rows
    ensures id !in AfterSweep(rows, env) <==>
              && (exists other :: other in rows && (rows[other].terminal.None? || rows[other].deliveredAt.None?))
              && rows[id].terminal.Some? && rows[id].terminal.value.at < env.now - 86_400_000
              && (rows[id].deliveredAt.Some? || Retold(rows[id], id, env))
  {
    NothingToDoMeans(rows);
  }

  lemma {:induction false} NothingToDoMeans(rows: Ledger)
    ensures NothingToDo(rows) <==> forall id :: id in rows ==> rows[id].terminal.Some? && rows[id].deliveredAt.Some?
  {
    if NothingToDo(rows) {
      forall id | id in rows ensures rows[id].terminal.Some? && rows[id].deliveredAt.Some? {
        assert id !in OpenIds(rows) && id !in OwedIds(rows);
      }
    }
  }

  lemma {:induction false} OwedCount(rows: Ledger)
    ensures |OwedIds(rows)| > 0 <==> exists id :: id in rows && rows[id].terminal.Some? && rows[id].deliveredAt.None?
  {
    if |OwedIds(rows)| > 0 {
      var id :| id in OwedIds(rows);
    }
    forall id | id in rows && rows[id].terminal.Some? && rows[id].deliveredAt.None? ensures OwedIds(rows) != {} {
      assert id in OwedIds(rows);
    }
  }

  /** A sweep throws exactly when some row is open or undelivered and no more get their turn than there are. */
  lemma {:induction false} ThrowsExactly(rows: Ledger, stop: Option<nat>)
    requires Consistent(rows)
    ensures var n := |set id | id in rows && rows[id].deliveredAt.None?|;
            SweepThrows(rows, stop) <==> n > 0 && stop.Some? && stop.value <= n
  {
    var undelivered := set id | id in rows && rows[id].deliveredAt.None?;
    assert undelivered == OpenIds(rows) + OwedIds(rows);
    assert OpenIds(rows) !! OwedIds(rows);
    assert |undelivered| == |OpenIds(rows)| + |OwedIds(rows)|;
  }

  /** A sweep that threw has done some of the undelivered rows as a whole sweep does them, no owed one before
      every open one, and left the others and the table as they were. */
  lemma {:induction false} CutShortExact(rows: Ledger, before: Ledger, done: set<Id>, env: Surroundings)
    requires CutShort(rows, before, done, env)
    ensures rows.Keys == before.Keys
    ensures forall id :: id in done ==>
              && id in before && (before[id].terminal.None? || before[id].deliveredAt.None?)
              && (id in AfterSweep(before, env) ==> rows[id] == AfterSweep(before, env)[id])
    ensures forall id, other :: id in done && before[id].terminal.Some? && other in before && other !in done ==>
              before[other].terminal.Some?
    ensures forall id :: id in before && id !in done ==> rows[id] == before[id]
  {
    forall id | id in done ensures id in before && (before[id].terminal.None? || before[id].deliveredAt.None?) {
      assert id in OpenIds(before) || id in OwedIds(before);
    }
    forall id, other | id in done && before[id].terminal.Some? && other in before && other !in done
      ensures before[other].terminal.Some?
    {
      assert id !in OpenIds(before) && other !in OpenIds(before);
    }
  }

  /** Owed, no live watcher speaks for it, and the delivery goes through. */
  predicate Retold(row: WorkRow, id: Id, env: Surroundings) {
    row.deliveredAt.None? && !(row.kind.Process? && id in env.watched) && id !in env.throwing
  }

  /** A completed sweep leaves no open row whose horizon has passed, nor one a reset has reached. */
  lemma {:induction false} SweepLeavesHorizonsAhead(rows: Ledger, env: Surroundings, id: Id)
    requires id in OpenIds(AfterSweep(rows, env))
    ensures id in OpenIds(rows) && AfterSweep(rows, env)[id] == rows[id]
    ensures env.now <= Horizon(rows[id]) && !IsReset(rows[id], env.current)
  {
    assert id in OpenIds(rows);
    AliveMeansHorizonAhead(rows[id], env.current, env.now);
  }

  /** After a sweep exactly these rows are owed: the ones whose delivery threw, and the ones a live watcher owes. */
  lemma {:induction false} OwedAfterSweepExactly(rows: Ledger, env: Surroundings, id: Id)
    requires Consistent(rows)
    ensures id in OwedIds(AfterSweep(rows, env)) <==>
            id in rows &&
            if Open(rows[id]) then id in env.throwing && Classify(rows[id], env.current, env.now).Gone?
            else Owed(rows[id]) && (id in env.throwing || (rows[id].kind.Process? && id in env.watched))
  {
    assert id in rows ==> (Open(rows[id]) <==> id in OpenIds(rows)) && (Owed(rows[id]) <==> id in OwedIds(rows));
  }

  /** Sweeping keeps every row that is still open or owed; only delivered, expired terminals go. */
  lemma {:induction false} SweepDropsOnlyDelivered(rows: Ledger, env: Surroundings, id: Id)
    requires id in rows && id !in AfterSweep(rows, env)
    ensures Swept(rows[id], id, env).terminal.Some? && Swept(rows[id], id, env).deliveredAt.Some?
    ensures Swept(rows[id], id, env).terminal.value.at < env.now - 86_400_000
  {
  }

  /** The fallback is the least of these times, over what is open, owed and watched: an open row's deadline or
      the end of its silence, a minute from now for an owed delivery or a watcher that is overdue, and the
      next poll of one that is not. */
  lemma {:induction false} FallbackIsLeast(rows: Ledger, watcher: Option<int>, now: int, h: int)
    requires IsFallback(rows, watcher, now, h)
    ensures forall id :: id in rows && rows[id].terminal.None? ==>
              h <= rows[id].deadlineAt && h <= rows[id].lastAliveAt + rows[id].staleAfterMs
    ensures forall id :: id in rows && rows[id].terminal.Some? && rows[id].deliveredAt.None? ==> h <= now + 60_000
    ensures watcher.Some? ==> h <= if watcher.value > now then watcher.value else now + 60_000
    ensures
      || (exists id :: id in rows && rows[id].terminal.None?
                       && (h == rows[id].deadlineAt || h == rows[id].lastAliveAt + rows[id].staleAfterMs))
      || (h == now + 60_000 && exists id :: id in rows && rows[id].terminal.Some? && rows[id].deliveredAt.None?)
      || (watcher.Some? && h == if watcher.value > now then watcher.value else now + 60_000)
  {
    forall id | id in rows && rows[id].terminal.None?
      ensures h <= rows[id].deadlineAt && h <= rows[id].lastAliveAt + rows[id].staleAfterMs
    {
      assert id in OpenIds(rows);
    }
    forall id | id in rows && rows[id].terminal.Some? && rows[id].deliveredAt.None? ensures h <= now + 60_000 {
      assert id in OwedIds(rows);
    }
    if id :| id in OpenIds(rows) && Horizon(rows[id]) == h {
      assert id in rows && rows[id].terminal.None?;
    } else if OwedIds(rows) != {} && h == now + 60_000 {
      var id :| id in OwedIds(rows);
      assert id in rows && rows[id].terminal.Some? && rows[id].deliveredAt.None?;
    }
  }

  /** Whatever a sweep left behind, the fallback lies in the past exactly when some open row's horizon does. */
  lemma {:induction false} FallbackHotExactly(rows: Ledger, watcher: Option<int>, now: int, h: int)
    requires IsFallback(rows, watcher, now, h)
    ensures h < now <==> exists id :: id in OpenIds(rows) && Horizon(rows[id]) < now
  {
  }

  /** A sweep that throws before it reaches a stale row leaves the fallback to be armed in the past. */
  lemma {:induction false} EarlyThrowArmsHot(id: Id, row: WorkRow, env: Surroundings, now: int)
    requires Open(row) && Horizon(row) < now
    ensures var rows := map[id := row];
            && SweepThrows(rows, Some(0)) && CutShort(rows, rows, {}, env)
            && IsFallback(rows, None, now, Horizon(row)) && Horizon(row) < now
  {
    var rows: Ledger := map[id := row];
    assert OpenIds(rows) == {id} && OwedIds(rows) == {};
    assert CutShort(rows, rows, {}, env);
  }

  /** A sweep that throws only after the classification pass leaves no open row whose horizon has passed. */
  lemma {:induction false} LateThrowLeavesHorizonsAhead(
    rows: Ledger, before: Ledger, done: set<Id>, env: Surroundings, id: Id)
    requires CutShort(rows, before, done, env) && OpenIds(before) <= done && id in OpenIds(rows)
    ensures env.now <= Horizon(rows[id])
  {
    assert id in OpenIds(before);
    AliveMeansHorizonAhead(before[id], env.current, env.now);
  }

  /** One that throws earlier has left every row not yet reached as it was, however stale. */
  lemma {:induction false} EarlyThrowLeavesRest(
    rows: Ledger, before: Ledger, done: set<Id>, env: Surroundings, id: Id)
    requires CutShort(rows, before, done, env)
    ensures id in OpenIds(before) && id !in done ==> id in OpenIds(rows) && rows[id] == before[id]
    ensures id in OwedIds(before) && id !in done ==> id in OwedIds(rows) && rows[id] == before[id]
  {
  }

  /** The fallback cannot re-arm hot: after a completed sweep it is never before that sweep's own
      time, and when no row is open it lies strictly in the future. */
  lemma {:induction false} FallbackNeverHot(rows: Ledger, env: Surroundings, watcher: Option<int>, now: int, h: int)
    requires env.now <= now && IsFallback(AfterSweep(rows, env), watcher, now, h)
    ensures env.now <= h
    ensures OpenIds(AfterSweep(rows, env)) == {} ==> now < h
  {
    var after := AfterSweep(rows, env);
    forall id | id in OpenIds(after) ensures env.now <= Horizon(after[id]) {
      SweepLeavesHorizonsAhead(rows, env, id);
    }
  }
}
