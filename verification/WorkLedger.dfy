/**
 The background work ledger (src/agent/work-ledger.ts, src/agent/work-ledger-store.ts): one row per
 process or subagent run, a first-writer-wins terminal, and a separate delivery gate.
 */
module WorkLedger {
  import opened Wrappers

  const WORK_DELIVERY_RETRY_MS := 60_000
  const WORK_ROW_RETENTION_MS := 86_400_000
  const UNKNOWN_GENERATION := "unknown"

  type Id = string

  datatype WorkKind = Process | Subagent

  datatype Outcome = Exited | Stopped | Timeout | Fault

  datatype Reason = ProcessExit | ProcessStopped | WatchTimeout | SandboxReset | NoLiveness

  datatype Terminal = Terminal(outcome: Outcome, reason: Reason, at: int)

  datatype WorkRow = WorkRow(
    kind: WorkKind,
    startedAt: int,
    lastAliveAt: int,
    staleAfterMs: int,
    deadlineAt: int,
    generation: string,
    terminal: Option<Terminal>,
    deliveredAt: Option<int>
  )

  type Ledger = map<Id, WorkRow>

  datatype CurrentGeneration = UnknownGeneration | KnownGeneration(nonce: string) | AbsentSince(observedAt: int)

  datatype Classification = Alive | Gone(outcome: Outcome, reason: Reason)

  predicate IsReset(row: WorkRow, current: CurrentGeneration) {
    match current
    case UnknownGeneration => false
    case KnownGeneration(nonce) => row.generation != UNKNOWN_GENERATION && nonce != row.generation
    case AbsentSince(observedAt) => row.startedAt < observedAt
  }

  /** What the reaper decides about one row; a reset takes precedence over a timeout, a timeout over silence. */
  function Classify(row: WorkRow, current: CurrentGeneration, now: int): Classification {
    if row.terminal.Some? then Alive
    else if IsReset(row, current) then Gone(Fault, SandboxReset)
    else if now > row.deadlineAt then Gone(Timeout, WatchTimeout)
    else if now - row.lastAliveAt > row.staleAfterMs then Gone(Fault, NoLiveness)
    else Alive
  }

  predicate Open(row: WorkRow) {
    row.terminal.None?
  }

  /** Closed, and nobody has told the model. */
  predicate Owed(row: WorkRow) {
    row.terminal.Some? && row.deliveredAt.None?
  }

  function Horizon(row: WorkRow): int {
    Min(row.deadlineAt, row.lastAliveAt + row.staleAfterMs)
  }

  function OpenIds(rows: Ledger): set<Id> {
    set id | id in rows && Open(rows[id])
  }

  function OwedIds(rows: Ledger): set<Id> {
    set id | id in rows && Owed(rows[id])
  }

  /** `ids` names each member of `all` once. */
  predicate Lists(ids: seq<Id>, all: set<Id>) {
    NoDuplicates(ids) && (forall id :: id in ids ==> id in all) && (forall id :: id in all ==> id in ids)
  }

  /** `h` is the soonest horizon among the open rows, if there is one. */
  ghost predicate Soonest(rows: Ledger, h: Option<int>) {
    && (h.None? <==> OpenIds(rows) == {})
    && (h.Some? ==> exists id :: id in OpenIds(rows) && Horizon(rows[id]) == h.value)
    && (h.Some? ==> forall id :: id in OpenIds(rows) ==> h.value <= Horizon(rows[id]))
  }

  // ---------- the store's statements ----------

  /** Re-registering refreshes a row without rewinding its start or touching its terminal. */
  function Registered(rows: Ledger, id: Id, row: WorkRow): Ledger {
    if id in rows then
      rows[id := rows[id].(
        lastAliveAt := if rows[id].lastAliveAt < row.lastAliveAt then row.lastAliveAt else rows[id].lastAliveAt,
        staleAfterMs := row.staleAfterMs, deadlineAt := row.deadlineAt, generation := row.generation)]
    else rows[id := row.(deliveredAt := None)]
  }

  function StampedAlive(rows: Ledger, id: Id, at: int): Ledger {
    if id in rows && Open(rows[id]) && rows[id].lastAliveAt < at then rows[id := rows[id].(lastAliveAt := at)]
    else rows
  }

  /** Whether `Terminalize` would be the call that closes the row. */
  predicate Closes(rows: Ledger, id: Id) {
    id in rows && Open(rows[id])
  }

  function Terminalized(rows: Ledger, id: Id, terminal: Terminal): Ledger {
    if Closes(rows, id) then rows[id := rows[id].(terminal := Some(terminal))] else rows
  }

  function MarkedDelivered(rows: Ledger, id: Id, at: int): Ledger {
    if id in rows && Owed(rows[id]) then rows[id := rows[id].(deliveredAt := Some(at))] else rows
  }

  predicate Prunable(row: WorkRow, before: int) {
    row.terminal.Some? && row.deliveredAt.Some? && row.terminal.value.at < before
  }

  function Pruned(rows: Ledger, before: int): Ledger {
    map id | id in rows && !Prunable(rows[id], before) :: rows[id]
  }

  class WorkLedgerStore {
    var rows: Ledger

    constructor ()
      ensures rows == map[]
    {
      rows := map[];
    }

    method Register(id: Id, row: WorkRow)
      modifies this
      ensures rows == Registered(old(rows), id, row)
    {
      if id in rows {
        var kept := rows[id];
        var alive := if kept.lastAliveAt < row.lastAliveAt then row.lastAliveAt else kept.lastAliveAt;
        rows := rows[id := kept.(lastAliveAt := alive, staleAfterMs := row.staleAfterMs,
                                 deadlineAt := row.deadlineAt, generation := row.generation)];
      } else {
        rows := rows[id := row.(deliveredAt := None)];
      }
    }

    method StampAlive(id: Id, at: int)
      modifies this
      ensures rows == StampedAlive(old(rows), id, at)
    {
      if id in rows && Open(rows[id]) && rows[id].lastAliveAt < at {
        rows := rows[id := rows[id].(lastAliveAt := at)];
      }
    }

    /** True only for the call that closed the row. */
    method Terminalize(id: Id, terminal: Terminal) returns (closed: bool)
      modifies this
      ensures rows == Terminalized(old(rows), id, terminal)
      ensures closed == Closes(old(rows), id)
    {
      closed := id in rows && Open(rows[id]);
      if closed {
        rows := rows[id := rows[id].(terminal := Some(terminal))];
      }
    }

    /** True only for the call that discharged the delivery. */
    method MarkDelivered(id: Id, at: int) returns (claimed: bool)
      modifies this
      ensures rows == MarkedDelivered(old(rows), id, at)
      ensures claimed == (id in old(rows) && Owed(old(rows)[id]))
    {
      claimed := id in rows && Owed(rows[id]);
      if claimed {
        rows := rows[id := rows[id].(deliveredAt := Some(at))];
      }
    }

    method ListOpen() returns (ids: seq<Id>)
      ensures Lists(ids, OpenIds(rows))
    {
      ids := ListMembers(set id | id in rows && Open(rows[id]));
    }

    method ListUndelivered() returns (ids: seq<Id>)
      ensures Lists(ids, OwedIds(rows))
    {
      ids := ListMembers(set id | id in rows && Owed(rows[id]));
    }

    method CountUndelivered() returns (total: nat)
      ensures total == |OwedIds(rows)|
    {
      total := |set id | id in rows && Owed(rows[id])|;
    }

    /** Drops delivered terminals past retention; an owed row survives whatever its age. */
    method Prune(before: int)
      modifies this
      ensures rows == Pruned(old(rows), before)
    {
      rows := map id | id in rows && !Prunable(rows[id], before) :: rows[id];
    }

    /** The soonest time an open row needs another look. */
    method NextSweepAt() returns (soonest: Option<int>)
      ensures Soonest(rows, soonest)
      ensures soonest.None? <==> forall id :: id in rows ==> rows[id].terminal.Some?
      ensures soonest.Some? ==>
                forall id :: id in rows && rows[id].terminal.None? ==>
                  soonest.value <= rows[id].deadlineAt && soonest.value <= rows[id].lastAliveAt + rows[id].staleAfterMs
      ensures soonest.Some? ==>
                exists id :: id in rows && rows[id].terminal.None?
                  && (soonest.value == rows[id].deadlineAt
                      || soonest.value == rows[id].lastAliveAt + rows[id].staleAfterMs)
    {
      var ids := ListOpen();
      EveryMemberListed(ids, OpenIds(rows));
      soonest := None;
      for i := 0 to |ids|
        invariant forall j :: 0 <= j < |ids| ==> ids[j] in rows
        invariant soonest.None? <==> i == 0
        invariant soonest.Some? ==> exists j :: 0 <= j < i && Horizon(rows[ids[j]]) == soonest.value
        invariant soonest.Some? ==> forall j :: 0 <= j < i ==> soonest.value <= Horizon(rows[ids[j]])
      {
        var horizon := Horizon(rows[ids[i]]);
        if soonest.None? || horizon < soonest.value {
          soonest := Some(horizon);
        }
      }
      assert forall id :: id in rows && rows[id].terminal.None? ==> id in OpenIds(rows);
    }
  }

  method ListMembers(all: set<Id>) returns (ids: seq<Id>)
    ensures Lists(ids, all)
  {
    var rest := all;
    ids := [];
    while rest != {}
      invariant rest <= all && NoDuplicates(ids)
      invariant forall id :: id in ids <==> id in all && id !in rest
      decreases |rest|
    {
      var id :| id in rest;
      rest := rest - {id};
      ids := ids + [id];
    }
  }

  lemma {:induction false} EveryMemberListed(ids: seq<Id>, all: set<Id>)
    requires Lists(ids, all)
    ensures ids == [] <==> all == {}
    ensures forall id :: id in all ==> exists j :: 0 <= j < |ids| && ids[j] == id
    ensures forall j :: 0 <= j < |ids| ==> ids[j] in all
  {
    assert ids != [] ==> ids[0] in all;
  }

  // ---------- what the store guarantees ----------

  /** A row survives classification exactly when it is closed already, or no reset reached it and its horizon
      has not passed. */
  lemma {:induction false} AliveMeansHorizonAhead(row: WorkRow, current: CurrentGeneration, now: int)
    ensures Classify(row, current, now).Alive?
            <==> row.terminal.Some? || (!IsReset(row, current) && now <= Horizon(row))
    ensures IsReset(row, current) <==>
              match current
              case UnknownGeneration => false
              case KnownGeneration(g) => row.generation !in {"unknown", g}
              case AbsentSince(t) => t > row.startedAt
    ensures now <= Horizon(row) <==> now <= row.deadlineAt && now - row.lastAliveAt <= row.staleAfterMs
  {
  }

  /** Under a known generation an open row is faulted as reset exactly when it was registered under another
      one, and a row registered under none never is. */
  lemma {:induction false} ResetWhenKnown(row: WorkRow, g: string, now: int)
    requires row.terminal.None?
    ensures Classify(row, KnownGeneration(g), now) == Gone(Fault, SandboxReset)
            <==> row.generation != "unknown" && row.generation != g
  {
  }

  /** Without any knowledge of the generation no row is. */
  lemma {:induction false} NoResetWhenUnknown(row: WorkRow, now: int)
    ensures Classify(row, UnknownGeneration, now) != Gone(Fault, SandboxReset)
  {
  }

  /** With the sandbox seen absent exactly the rows started before that are. */
  lemma {:induction false} ResetWhenAbsent(row: WorkRow, t: int, now: int)
    requires row.terminal.None?
    ensures Classify(row, AbsentSince(t), now) == Gone(Fault, SandboxReset) <==> row.startedAt < t
  {
  }

  /** An open row that no reset reached times out past its deadline, faults when it has been silent too long
      within it, and is alive otherwise. */
  lemma {:induction false} ClassifiedByTime(row: WorkRow, current: CurrentGeneration, now: int)
    requires row.terminal.None? && Classify(row, current, now) != Gone(Fault, SandboxReset)
    ensures Classify(row, current, now) == Gone(Timeout, WatchTimeout) <==> now > row.deadlineAt
    ensures Classify(row, current, now) == Gone(Fault, NoLiveness)
            <==> now <= row.deadlineAt && now - row.lastAliveAt > row.staleAfterMs
    ensures Classify(row, current, now) == Alive
            <==> now <= row.deadlineAt && now - row.lastAliveAt <= row.staleAfterMs
  {
  }

  /** Every row but one is as it was. */
  predicate OthersSame(before: Ledger, after: Ledger, id: Id) {
    && before.Keys - {id} == after.Keys - {id}
    && forall other :: other in before.Keys - {id} ==> after[other] == before[other]
  }

  /** A row registered again takes the new limits and generation, its liveness moves forward only, and its
      kind, start, terminal and delivery stay. A new one is taken as it is, undelivered. */
  lemma {:induction false} RegisterRefreshes(rows: Ledger, id: Id, row: WorkRow)
    ensures var after := Registered(rows, id, row);
            && id in after && OthersSame(rows, after, id)
            && after[id].staleAfterMs == row.staleAfterMs && after[id].deadlineAt == row.deadlineAt
            && after[id].generation == row.generation && after[id].lastAliveAt >= row.lastAliveAt
            && (id !in rows ==>
                  && after[id].kind == row.kind && after[id].startedAt == row.startedAt
                  && after[id].lastAliveAt == row.lastAliveAt
                  && after[id].terminal == row.terminal && after[id].deliveredAt == None)
            && (id in rows ==>
                  && after[id].kind == rows[id].kind && after[id].startedAt == rows[id].startedAt
                  && after[id].lastAliveAt >= rows[id].lastAliveAt
                  && (after[id].lastAliveAt == row.lastAliveAt || after[id].lastAliveAt == rows[id].lastAliveAt)
                  && after[id].terminal == rows[id].terminal && after[id].deliveredAt == rows[id].deliveredAt)
  {
  }

  /** A stamp makes an open row at least that lately alive and touches nothing else. */
  lemma {:induction false} StampForward(rows: Ledger, id: Id, at: int)
    ensures var after := StampedAlive(rows, id, at);
            && after.Keys == rows.Keys && OthersSame(rows, after, id)
            && (id in rows ==> after[id] == rows[id].(lastAliveAt := after[id].lastAliveAt))
            && (id in rows && rows[id].terminal.Some? ==> after[id] == rows[id])
            && (id in rows && rows[id].terminal.None? ==>
                  && after[id].lastAliveAt >= at && after[id].lastAliveAt >= rows[id].lastAliveAt
                  && (after[id].lastAliveAt == at || after[id].lastAliveAt == rows[id].lastAliveAt))
  {
  }

  /** Terminalizing closes an open row with that terminal; delivering stamps a closed, owed one with that time. */
  lemma {:induction false} CloseAndDeliver(rows: Ledger, id: Id, terminal: Terminal, at: int)
    requires id in rows
    ensures var closed, told := Terminalized(rows, id, terminal), MarkedDelivered(rows, id, at);
            && closed.Keys == rows.Keys && OthersSame(rows, closed, id)
            && told.Keys == rows.Keys && OthersSame(rows, told, id)
            && closed[id] == rows[id].(terminal := closed[id].terminal)
            && closed[id].terminal == (if rows[id].terminal.None? then Some(terminal) else rows[id].terminal)
            && told[id] == rows[id].(deliveredAt := told[id].deliveredAt)
            && told[id].deliveredAt
               == (if rows[id].terminal.Some? && rows[id].deliveredAt.None? then Some(at) else rows[id].deliveredAt)
  {
  }

  /** Pruning drops exactly the delivered terminals from before the given time. */
  lemma {:induction false} PrunesExactly(rows: Ledger, id: Id, before: int)
    ensures id in Pruned(rows, before) <==>
              && id in rows
              && !(rows[id].terminal.Some? && rows[id].deliveredAt.Some? && rows[id].terminal.value.at < before)
    ensures id in Pruned(rows, before) ==> Pruned(rows, before)[id] == rows[id]
  {
  }

  /** No statement rewrites a terminal, reopens a row, or discharges a delivery twice. */
  lemma {:induction false} ClosedRowsStayClosed(rows: Ledger, id: Id, other: Id, row: WorkRow, terminal: Terminal,
        at: int)
    requires id in rows && rows[id].terminal.Some?
    ensures Terminalized(rows, other, terminal)[id] == rows[id]
    ensures StampedAlive(rows, other, at)[id] == rows[id]
    ensures Registered(rows, other, row)[id].terminal == rows[id].terminal
    ensures Registered(rows, other, row)[id].deliveredAt == rows[id].deliveredAt
    ensures MarkedDelivered(rows, other, at)[id].terminal == rows[id].terminal
    ensures rows[id].deliveredAt.Some? ==> MarkedDelivered(rows, other, at)[id] == rows[id]
    ensures id in Pruned(rows, at) ==> Pruned(rows, at)[id] == rows[id]
    ensures Owed(rows[id]) ==> id in Pruned(rows, at)
  {
  }
}
