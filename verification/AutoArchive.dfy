/**
 The idle-thread sweep (src/agent/auto-archive.ts:26-77): the oldest eligible threads, at most 25 a
 run, each archived, skipped or failed.
 */
module AutoArchive {
  import opened Wrappers

  const AUTO_ARCHIVE_BATCH := 25

  type Id = string

  /** A registry row; `empty` says whether its object exports an empty transcript. */
  datatype Thread = Thread(updatedAt: int, archived: bool, skippedAt: int, wasSkipped: bool, empty: bool)

  type Registry = map<Id, Thread>

  predicate Eligible(t: Thread, cutoff: int) {
    !t.archived && t.updatedAt < cutoff && (!t.wasSkipped || t.skippedAt < t.updatedAt)
  }

  function EligibleIds(rows: Registry, cutoff: int): set<Id> {
    set id | id in rows && Eligible(rows[id], cutoff)
  }

  function Ids(ids: seq<Id>): set<Id> {
    set i | 0 <= i < |ids| :: ids[i]
  }

  /** Oldest first, as many as the batch holds, and nothing left out that is older than something taken. */
  ghost predicate IsBatch(batch: seq<Id>, rows: Registry, eligible: set<Id>) {
    && NoDuplicates(batch) && Ids(batch) <= eligible && eligible <= rows.Keys
    && |batch| == Min(AUTO_ARCHIVE_BATCH, |eligible|)
    && (forall i, j :: 0 <= i < j < |batch| ==> rows[batch[i]].updatedAt <= rows[batch[j]].updatedAt)
    && (forall i, id :: 0 <= i < |batch| && id in eligible - Ids(batch) ==>
      rows[batch[i]].updatedAt <= rows[id].updatedAt)
  }

  /** Archived, or stamped so that it is not picked again before it changes. */
  function Processed(t: Thread): Thread {
    if t.empty then t.(skippedAt := t.updatedAt, wasSkipped := true) else t.(archived := true)
  }

  /** The registry after a batch in which the `held` threads were mid-turn or threw. */
  function AfterBatch(rows: Registry, batch: set<Id>, held: set<Id>): Registry {
    map id | id in rows :: if id in batch && id !in held then Processed(rows[id]) else rows[id]
  }

  method Oldest(rows: Registry, pool: set<Id>) returns (id: Id)
    requires pool != {} && pool <= rows.Keys
    ensures id in pool && forall other :: other in pool ==> rows[id].updatedAt <= rows[other].updatedAt
  {
    id :| id in pool;
    var rest := pool - {id};
    while rest != {}
      invariant rest <= pool && id in pool
      invariant forall other :: other in pool - rest ==> rows[id].updatedAt <= rows[other].updatedAt
      decreases |rest|
    {
      var next :| next in rest;
      if rows[next].updatedAt < rows[id].updatedAt {
        id := next;
      }
      rest := rest - {next};
    }
  }

  /** The first `|batch|` of a selection in order of age, out of `eligible`. */
  ghost predicate Taken(batch: seq<Id>, left: set<Id>, rows: Registry, eligible: set<Id>) {
    && NoDuplicates(batch) && Ids(batch) !! left && Ids(batch) + left == eligible && eligible <= rows.Keys
    && |batch| + |left| == |eligible|
    && (forall i, j :: 0 <= i < j < |batch| ==> rows[batch[i]].updatedAt <= rows[batch[j]].updatedAt)
    && (forall i, id :: 0 <= i < |batch| && id in left ==> rows[batch[i]].updatedAt <= rows[id].updatedAt)
  }

  lemma {:induction false} TakeSplits(batch: seq<Id>, left: set<Id>, eligible: set<Id>, id: Id)
    requires NoDuplicates(batch) && Ids(batch) !! left && Ids(batch) + left == eligible && id in left
    requires |batch| + |left| == |eligible|
    ensures NoDuplicates(batch + [id]) && Ids(batch + [id]) !! (left - {id})
            && Ids(batch + [id]) + (left - {id}) == eligible
    ensures |batch + [id]| + |left - {id}| == |eligible|
  {
    IdsSnoc(batch, id);
    forall i | 0 <= i < |batch| ensures batch[i] != id {
      assert batch[i] in Ids(batch);
    }
  }

  lemma {:induction false} TakeOldest(batch: seq<Id>, left: set<Id>, rows: Registry, eligible: set<Id>, id: Id)
    requires Taken(batch, left, rows, eligible) && id in left
    requires forall other :: other in left ==> rows[id].updatedAt <= rows[other].updatedAt
    ensures Taken(batch + [id], left - {id}, rows, eligible)
  {
    TakeSplits(batch, left, eligible, id);
    var more := batch + [id];
    forall i | 0 <= i < |more| ensures more[i] in eligible {
      assert more[i] in Ids(more);
    }
  }

  lemma {:induction false} IdsSnoc(batch: seq<Id>, id: Id)
    ensures Ids(batch + [id]) == Ids(batch) + {id}
  {
    forall x | x in Ids(batch) ensures x in Ids(batch + [id]) {
      var i :| 0 <= i < |batch| && batch[i] == x;
      assert (batch + [id])[i] == x;
    }
    assert (batch + [id])[|batch|] == id;
  }

  lemma {:induction false} NothingTaken(rows: Registry, eligible: set<Id>)
    requires eligible <= rows.Keys
    ensures Taken([], eligible, rows, eligible)
  {
    assert Ids([]) == {};
  }

  method SelectBatch(rows: Registry, cutoff: int) returns (batch: seq<Id>)
    ensures IsBatch(batch, rows, EligibleIds(rows, cutoff))
  {
    var eligible := EligibleIds(rows, cutoff);
    var left := eligible;
    batch := [];
    NothingTaken(rows, eligible);
    while |batch| < AUTO_ARCHIVE_BATCH && left != {}
      invariant Taken(batch, left, rows, eligible) && |batch| <= AUTO_ARCHIVE_BATCH
      decreases |left|
    {
      var id := Oldest(rows, left);
      TakeOldest(batch, left, rows, eligible, id);
      batch := batch + [id];
      left := left - {id};
    }
    assert eligible - Ids(batch) == left;
  }

  datatype Verdict = Archived | Skipped | Failed

  /** What a sweep reports of one thread: a throw is a failure, a thread mid-turn or empty is skipped. */
  function Report(t: Thread, id: Id, active: set<Id>, failing: set<Id>): Verdict {
    if id in failing then Failed
    else if id in active || t.empty then Skipped
    else Archived
  }

  function Tally(batch: seq<Id>, rows: Registry, active: set<Id>, failing: set<Id>, v: Verdict): nat
    requires Ids(batch) <= rows.Keys
  {
    |Reported(Ids(batch), rows, active, failing, v)|
  }

  function Reported(ids: set<Id>, rows: Registry, active: set<Id>, failing: set<Id>, v: Verdict): set<Id>
    requires ids <= rows.Keys
  {
    set id | id in ids && Report(rows[id], id, active, failing) == v
  }

  class ThreadRegistry {
    var rows: Registry

    constructor (rows: Registry)
      ensures this.rows == rows
    {
      this.rows := rows;
    }

    /** The archive call for one thread of the batch, as the sweep sees it. */
    method ArchiveOne(id: Id, active: set<Id>, failing: set<Id>) returns (v: Verdict)
      requires id in rows && !rows[id].archived
      modifies this
      ensures v == Report(old(rows)[id], id, active, failing)
      ensures rows == if id in active + failing then old(rows) else old(rows)[id := Processed(old(rows)[id])]
    {
      if id in failing {
        return Failed;
      }
      if id in active {
        return Skipped;
      }
      rows := rows[id := Processed(rows[id])];
      return if rows[id].archived then Archived else Skipped;
    }

    /** One sweep; `active` threads are mid-turn and `failing` ones throw. */
    method AutoArchiveIdleThreads(cutoff: int, active: set<Id>, failing: set<Id>)
        returns (archived: nat, skipped: nat, failed: nat, ghost batch: seq<Id>)
      modifies this
      ensures IsBatch(batch, old(rows), EligibleIds(old(rows), cutoff))
      ensures rows == AfterBatch(old(rows), Ids(batch), active + failing)
      ensures archived == Tally(batch, old(rows), active, failing, Archived)
      ensures skipped == Tally(batch, old(rows), active, failing, Skipped)
      ensures failed == Tally(batch, old(rows), active, failing, Failed)
      ensures archived + skipped + failed == |batch| && failed == |Ids(batch) * failing|
      ensures Ids(batch) <= rows.Keys && archived == |set id | id in Ids(batch) && rows[id].archived|
    {
      hide AfterBatch, Tallied, Ids, Processed;
      var stale := SelectBatch(rows, cutoff);
      batch := stale;
      archived, skipped, failed := 0, 0, 0;
      ghost var before := rows;
      NoneDone(before, active + failing);
      NoneTallied(stale, before, active, failing);
      for i := 0 to |stale|
        invariant rows == AfterBatch(before, Ids(stale[..i]), active + failing)
        invariant Tallied(stale, i, before, active, failing, archived, skipped, failed)
      {
        var id := stale[i];
        BatchMember(before, stale, cutoff, i);
        OneMoreDone(before, stale, i, active + failing);
        OneMoreTallied(stale, i, before, active, failing, archived, skipped, failed);
        var v := ArchiveOne(id, active, failing);
        match v {
          case Archived => archived := archived + 1;
          case Skipped => skipped := skipped + 1;
          case Failed => failed := failed + 1;
        }
      }
      assert stale[..|stale|] == stale;
      AllTallied(stale, before, active, failing, archived, skipped, failed);
      CountsExact(before, stale, cutoff, active, failing);
    }
  }

  /** The counters after the first `i` threads of the batch. */
  ghost predicate Tallied(batch: seq<Id>, i: nat, rows: Registry, active: set<Id>, failing: set<Id>,
                          archived: nat, skipped: nat, failed: nat) {
    && i <= |batch| && Ids(batch[..i]) <= rows.Keys
    && archived == Tally(batch[..i], rows, active, failing, Archived)
    && skipped == Tally(batch[..i], rows, active, failing, Skipped)
    && failed == Tally(batch[..i], rows, active, failing, Failed)
  }

  lemma {:induction false} NoneTallied(batch: seq<Id>, rows: Registry, active: set<Id>, failing: set<Id>)
    ensures Tallied(batch, 0, rows, active, failing, 0, 0, 0)
  {
    assert Ids([]) == {};
    forall v ensures Reported({}, rows, active, failing, v) == {} {
    }
  }

  lemma {:induction false} AllTallied(batch: seq<Id>, rows: Registry, active: set<Id>, failing: set<Id>,
                                      archived: nat, skipped: nat, failed: nat)
    requires Ids(batch) <= rows.Keys && Tallied(batch, |batch|, rows, active, failing, archived, skipped, failed)
    ensures archived == Tally(batch, rows, active, failing, Archived)
    ensures skipped == Tally(batch, rows, active, failing, Skipped)
    ensures failed == Tally(batch, rows, active, failing, Failed)
  {
    assert batch[..|batch|] == batch;
  }

  lemma {:induction false} TallyNext(front: seq<Id>, id: Id, rows: Registry, active: set<Id>, failing: set<Id>,
        v: Verdict)
    requires Ids(front) <= rows.Keys && id in rows && id !in Ids(front)
    ensures Ids(front + [id]) <= rows.Keys
    ensures Tally(front + [id], rows, active, failing, v)
            == Tally(front, rows, active, failing, v) + (if Report(rows[id], id, active, failing) == v then 1 else 0)
  {
    IdsSnoc(front, id);
    hide Ids, Report;
    var was := Reported(Ids(front), rows, active, failing, v);
    assert Reported(Ids(front) + {id}, rows, active, failing, v)
           == if Report(rows[id], id, active, failing) == v then was + {id} else was;
  }

  lemma {:induction false} OneMoreTallied(batch: seq<Id>, i: nat, rows: Registry, active: set<Id>, failing: set<Id>,
                                          archived: nat, skipped: nat, failed: nat)
    requires Tallied(batch, i, rows, active, failing, archived, skipped, failed)
    requires i < |batch| && NoDuplicates(batch) && batch[i] in rows
    ensures Tallied(batch, i + 1, rows, active, failing,
                    archived + (if Report(rows[batch[i]], batch[i], active, failing).Archived? then 1 else 0),
                    skipped + (if Report(rows[batch[i]], batch[i], active, failing).Skipped? then 1 else 0),
                    failed + (if Report(rows[batch[i]], batch[i], active, failing).Failed? then 1 else 0))
  {
    NotYetListed(batch, i);
    assert batch[..i + 1] == batch[..i] + [batch[i]];
    TallyNext(batch[..i], batch[i], rows, active, failing, Archived);
    TallyNext(batch[..i], batch[i], rows, active, failing, Skipped);
    TallyNext(batch[..i], batch[i], rows, active, failing, Failed);
  }

  lemma {:induction false} NotYetListed(batch: seq<Id>, i: nat)
    requires NoDuplicates(batch) && i < |batch|
    ensures batch[i] !in Ids(batch[..i])
  {
    forall j | 0 <= j < i ensures batch[..i][j] != batch[i] {
    }
  }

  lemma {:induction false} Member(ids: seq<Id>, i: nat)
    requires i < |ids|
    ensures ids[i] in Ids(ids)
  {
  }

  lemma {:induction false} BatchMember(rows: Registry, batch: seq<Id>, cutoff: int, i: nat)
    requires IsBatch(batch, rows, EligibleIds(rows, cutoff)) && i < |batch|
    ensures batch[i] in rows && Eligible(rows[batch[i]], cutoff) && NoDuplicates(batch)
  {
    Member(batch, i);
  }

  lemma {:induction false} NoneDone(rows: Registry, held: set<Id>)
    ensures rows == AfterBatch(rows, Ids([]), held)
  {
  }

  lemma {:induction false} OneMoreDone(rows: Registry, batch: seq<Id>, i: nat, held: set<Id>)
    requires i < |batch| && NoDuplicates(batch) && batch[i] in rows
    ensures batch[i] in AfterBatch(rows, Ids(batch[..i]), held)
    ensures AfterBatch(rows, Ids(batch[..i]), held)[batch[i]] == rows[batch[i]]
    ensures AfterBatch(rows, Ids(batch[..i + 1]), held)
            == if batch[i] in held then AfterBatch(rows, Ids(batch[..i]), held)
               else AfterBatch(rows, Ids(batch[..i]), held)[batch[i] := Processed(rows[batch[i]])]
  {
    assert batch[..i + 1] == batch[..i] + [batch[i]];
    IdsSnoc(batch[..i], batch[i]);
    forall j | 0 <= j < i ensures batch[..i][j] != batch[i] {
    }
  }

  // ---------- progress ----------

  lemma {:induction false} DistinctCount(ids: seq<Id>)
    requires NoDuplicates(ids)
    ensures |Ids(ids)| == |ids|
  {
    if ids == [] {
      assert Ids(ids) == {};
    } else {
      var front, last := ids[..|ids| - 1], ids[|ids| - 1];
      DistinctCount(front);
      IdsSnoc(front, last);
      assert ids == front + [last];
      forall i | 0 <= i < |front| ensures front[i] != last {
      }
    }
  }

  lemma {:induction false} ProcessedIsDone(t: Thread, cutoff: int)
    ensures !Eligible(Processed(t), cutoff)
  {
  }

  /** A sweep takes out of the eligible set exactly the batch threads that neither were mid-turn nor threw. */
  lemma {:induction false} EligibleAfter(rows: Registry, batch: seq<Id>, held: set<Id>, cutoff: int)
    requires Ids(batch) <= rows.Keys
    ensures EligibleIds(AfterBatch(rows, Ids(batch), held), cutoff) == EligibleIds(rows, cutoff) - (Ids(batch) - held)
  {
    forall id | id in rows ensures !Eligible(Processed(rows[id]), cutoff) {
      ProcessedIsDone(rows[id], cutoff);
    }
  }

  lemma {:induction false} CountAfterRemoval(all: set<Id>, gone: set<Id>)
    requires gone <= all
    ensures |all - gone| == |all| - |gone|
  {
    assert all == (all - gone) + gone;
  }

  /** With nothing held back, each sweep removes min(25, eligible) threads from the eligible set. */
  lemma {:induction false} SweepProgress(rows: Registry, batch: seq<Id>, cutoff: int)
    requires IsBatch(batch, rows, EligibleIds(rows, cutoff))
    ensures var left := EligibleIds(AfterBatch(rows, Ids(batch), {}), cutoff);
            |left| == Max(0, |EligibleIds(rows, cutoff)| - 25)
  {
    EligibleAfter(rows, batch, {}, cutoff);
    DistinctCount(batch);
    CountAfterRemoval(EligibleIds(rows, cutoff), Ids(batch));
    assert Ids(batch) - {} == Ids(batch);
  }

  // ---------- what one sweep does ----------

  /** A sweep takes waiting threads, each once and oldest first, 25 unless fewer wait, and leaves out none that
      is older. It archives each of them, or stamps it as skipped at its last touch when it is empty, and
      changes nothing else: not a thread that is mid-turn or throws, not one outside the batch. */
  lemma {:induction false} SweepExact(rows: Registry, batch: seq<Id>, cutoff: int, active: set<Id>, failing: set<Id>)
    requires IsBatch(batch, rows, EligibleIds(rows, cutoff))
    ensures |batch| <= 25 && AfterBatch(rows, Ids(batch), active + failing).Keys == rows.Keys
    ensures forall i, j :: 0 <= i < j < |batch| ==>
              batch[i] != batch[j] && rows[batch[i]].updatedAt <= rows[batch[j]].updatedAt
    ensures var after := AfterBatch(rows, Ids(batch), active + failing);
            forall i :: 0 <= i < |batch| ==>
              var id := batch[i];
              && id in rows && !rows[id].archived && rows[id].updatedAt < cutoff
              && (rows[id].wasSkipped ==> rows[id].skippedAt < rows[id].updatedAt)
              && after[id] == if id in active || id in failing then rows[id]
                              else if rows[id].empty then
                                Thread(rows[id].updatedAt, false, rows[id].updatedAt, true, true)
                              else
                                Thread(rows[id].updatedAt, true, rows[id].skippedAt, rows[id].wasSkipped, false)
    ensures var after := AfterBatch(rows, Ids(batch), active + failing);
            forall id :: id in rows && id !in batch ==>
              && after[id] == rows[id]
              && (!rows[id].archived && rows[id].updatedAt < cutoff
                  && (rows[id].wasSkipped ==> rows[id].skippedAt < rows[id].updatedAt) ==>
                |batch| == 25 && forall i :: 0 <= i < |batch| ==> rows[batch[i]].updatedAt <= rows[id].updatedAt)
  {
    forall i | 0 <= i < |batch| ensures batch[i] in rows && Eligible(rows[batch[i]], cutoff) {
      BatchMember(rows, batch, cutoff, i);
    }
    forall id | id in EligibleIds(rows, cutoff) && id !in batch ensures |batch| == 25 {
      OneLeftOut(batch, EligibleIds(rows, cutoff), id);
    }
  }

  lemma {:induction false} OneLeftOut(batch: seq<Id>, eligible: set<Id>, id: Id)
    requires NoDuplicates(batch) && Ids(batch) <= eligible && id in eligible && id !in batch
    ensures |batch| < |eligible|
  {
    DistinctCount(batch);
    Subset(Ids(batch), eligible - {id});
  }

  /** The counters add up to the batch: failed are the throwing threads, archived the newly archived ones. */
  lemma {:induction false} CountsExact(rows: Registry, batch: seq<Id>, cutoff: int, active: set<Id>, failing: set<Id>)
    requires IsBatch(batch, rows, EligibleIds(rows, cutoff))
    ensures var after := AfterBatch(rows, Ids(batch), active + failing);
            && Ids(batch) <= after.Keys
            && Tally(batch, rows, active, failing, Archived)
               == |set id | id in Ids(batch) && after[id].archived|
            && Tally(batch, rows, active, failing, Failed) == |Ids(batch) * failing|
            && Tally(batch, rows, active, failing, Archived) + Tally(batch, rows, active, failing, Skipped)
               + Tally(batch, rows, active, failing, Failed) == |batch|
  {
    hide AfterBatch, Ids, Report;
    DistinctCount(batch);
    VerdictSets(rows, batch, cutoff, active, failing);
    VerdictsSplit(Ids(batch), rows, active, failing);
  }

  lemma {:induction false} VerdictSets(rows: Registry, batch: seq<Id>, cutoff: int, active: set<Id>, failing: set<Id>)
    requires IsBatch(batch, rows, EligibleIds(rows, cutoff))
    ensures var after, ids := AfterBatch(rows, Ids(batch), active + failing), Ids(batch);
            && ids <= after.Keys
            && Reported(ids, rows, active, failing, Archived) == (set id | id in ids && after[id].archived)
            && Reported(ids, rows, active, failing, Failed) == ids * failing
  {
    var ids := Ids(batch);
    hide Ids;
    forall id | id in ids ensures id in rows && !rows[id].archived {
      assert id in EligibleIds(rows, cutoff);
    }
  }

  lemma {:induction false} VerdictsSplit(ids: set<Id>, rows: Registry, active: set<Id>, failing: set<Id>)
    requires ids <= rows.Keys
    ensures |ids| == |Reported(ids, rows, active, failing, Archived)| + |Reported(ids, rows, active, failing, Skipped)|
                     + |Reported(ids, rows, active, failing, Failed)|
  {
    var archived := Reported(ids, rows, active, failing, Archived);
    var rest := ids - archived;
    var skipped, failed := Reported(ids, rows, active, failing, Skipped), Reported(ids, rows, active, failing, Failed);
    assert ids == archived + rest;
    assert rest == skipped + failed;
  }

  /** An empty thread a sweep has stamped comes back exactly when it is touched later, once it has been idle
      past the cutoff again. */
  lemma {:induction false} TouchedComesBack(t: Thread, u: int, cutoff: int)
    requires !t.archived && t.empty
    ensures Eligible(Processed(t).(updatedAt := u), cutoff) <==> t.updatedAt < u < cutoff
  {
  }

  // ---------- successive sweeps ----------

  /** What may happen to the registry after a sweep at `cutoff`: threads appear, are touched, are archived
      by hand or go away. A new or touched thread is stamped with a time past the cutoff. */
  ghost predicate Drifts(before: Registry, after: Registry, cutoff: int) {
    forall id :: id in after ==>
      (id in before && after[id] == before[id]) || after[id].updatedAt >= cutoff || after[id].archived
  }

  ghost predicate SweptBy(batch: seq<Id>, before: Registry, after: Registry, cutoff: int, held: set<Id>, quiet: bool) {
    && IsBatch(batch, before, EligibleIds(before, cutoff))
    && var swept := AfterBatch(before, Ids(batch), held);
       if quiet then after == swept else Drifts(swept, after, cutoff)
  }

  ghost predicate IsSweep(before: Registry, after: Registry, cutoff: int, held: set<Id>, quiet: bool) {
    exists batch :: SweptBy(batch, before, after, cutoff, held, quiet)
  }

  predicate NeverBack(cutoffs: seq<int>) {
    forall i, j :: 0 <= i < j < |cutoffs| ==> cutoffs[i] <= cutoffs[j]
  }

  /** Successive sweeps, each with some valid batch at its own cutoff, the same threads held back in all.
      Unless they are `quiet`, anything may happen to the registry in between. */
  ghost predicate Sweeps(states: seq<Registry>, cutoffs: seq<int>, held: set<Id>, quiet: bool) {
    && states != [] && |cutoffs| == |states| && NeverBack(cutoffs)
    && forall i, j :: 0 <= i < |states| && 0 <= j < |states| && j == i + 1 ==>
      IsSweep(states[i], states[j], cutoffs[i], held, quiet)
  }

  lemma {:induction false} SweepAt(states: seq<Registry>, cutoffs: seq<int>, held: set<Id>, quiet: bool, k: nat)
    requires Sweeps(states, cutoffs, held, quiet) && k + 1 < |states|
    ensures IsSweep(states[k], states[k + 1], cutoffs[k], held, quiet) && cutoffs[0] <= cutoffs[k]
  {
  }

  lemma {:induction false} QuietDrifts(states: seq<Registry>, cutoffs: seq<int>, held: set<Id>)
    requires Sweeps(states, cutoffs, held, true)
    ensures Sweeps(states, cutoffs, held, false)
  {
    forall i, j | 0 <= i < |states| && 0 <= j < |states| && j == i + 1
      ensures IsSweep(states[i], states[j], cutoffs[i], held, false)
    {
      var batch :| SweptBy(batch, states[i], states[j], cutoffs[i], held, true);
      assert SweptBy(batch, states[i], states[j], cutoffs[i], held, false);
    }
  }

  lemma {:induction false} EarlierEligible(rows: Registry, first: int, cutoff: int)
    requires first <= cutoff
    ensures EligibleIds(rows, first) <= EligibleIds(rows, cutoff)
    ensures forall id :: id in EligibleIds(rows, cutoff) && rows[id].updatedAt < first ==>
              id in EligibleIds(rows, first)
  {
  }

  /** Threads that became eligible later are younger, so a batch at a later cutoff takes the ones eligible
      at an earlier one first. */
  lemma {:induction false} OldestTaken(rows: Registry, batch: seq<Id>, first: int, cutoff: int)
    requires IsBatch(batch, rows, EligibleIds(rows, cutoff)) && first <= cutoff
    ensures |Ids(batch) * EligibleIds(rows, first)| == Min(AUTO_ARCHIVE_BATCH, |EligibleIds(rows, first)|)
  {
    var all, early, taken := EligibleIds(rows, cutoff), EligibleIds(rows, first), Ids(batch);
    EarlierEligible(rows, first, cutoff);
    DistinctCount(batch);
    Subset(early, all);
    if early <= taken {
      assert taken * early == early;
      Subset(early, taken);
    } else {
      var x :| x in early && x !in taken;
      LeftOut(rows, batch, first, cutoff, x);
      assert taken * early == taken;
      Subset(taken, early);
    }
  }

  /** A batch that leaves an eligible thread out is full and holds only threads as old as it. */
  lemma {:induction false} LeftOut(rows: Registry, batch: seq<Id>, first: int, cutoff: int, x: Id)
    requires IsBatch(batch, rows, EligibleIds(rows, cutoff)) && first <= cutoff
    requires x in EligibleIds(rows, first) && x !in Ids(batch)
    ensures |Ids(batch)| == AUTO_ARCHIVE_BATCH && Ids(batch) <= EligibleIds(rows, first)
    ensures forall id :: id in Ids(batch) ==> rows[id].updatedAt <= rows[x].updatedAt
  {
    var all, taken := EligibleIds(rows, cutoff), Ids(batch);
    EarlierEligible(rows, first, cutoff);
    DistinctCount(batch);
    Subset(taken + {x}, all);
    assert |taken + {x}| == |taken| + 1;
    forall id | id in taken ensures rows[id].updatedAt <= rows[x].updatedAt {
      var i :| 0 <= i < |batch| && batch[i] == id;
      assert x in all - taken;
    }
  }

  lemma {:induction false} Subset(a: set<Id>, b: set<Id>)
    requires a <= b
    ensures |a| <= |b|
  {
    assert b == a + (b - a);
  }

  /** Of the threads eligible at the first cutoff none comes back, whatever else happens. */
  lemma {:induction false} DriftShrinks(before: Registry, after: Registry, first: int, cutoff: int)
    requires Drifts(before, after, cutoff) && first <= cutoff
    ensures EligibleIds(after, first) <= EligibleIds(before, first)
    ensures forall id :: id in EligibleIds(after, first) ==> after[id] == before[id]
  {
  }

  /** What one sweep, and what follows it, leaves of the threads eligible at the first cutoff. */
  lemma {:induction false} SweepLeaves(before: Registry, after: Registry, batch: seq<Id>, first: int, cutoff: int,
        held: set<Id>, quiet: bool)
    requires SweptBy(batch, before, after, cutoff, held, quiet) && first <= cutoff
    ensures EligibleIds(after, first) <= EligibleIds(before, first) - (Ids(batch) - held)
    ensures quiet ==> EligibleIds(after, first) == EligibleIds(before, first) - (Ids(batch) - held)
    ensures forall id :: id in EligibleIds(after, first) ==> after[id] == before[id]
  {
    EligibleAfter(before, batch, held, first);
    if !quiet {
      DriftShrinks(AfterBatch(before, Ids(batch), held), after, first, cutoff);
    }
  }

  function LeftOver(n: nat, done: nat): nat {
    if n <= done then 0 else n - done
  }

  /** Empty threads never starve later ones: with nothing held back, after `k` sweeps all but `n - 25k` of
      the `n` threads eligible at first are gone, and exactly those if nothing else happens. */
  lemma {:induction false} SweepsDrain(states: seq<Registry>, cutoffs: seq<int>, quiet: bool, k: nat)
    requires Sweeps(states, cutoffs, {}, quiet) && k < |states|
    ensures var left, limit := |EligibleIds(states[k], cutoffs[0])|, |EligibleIds(states[0], cutoffs[0])|;
            && left <= Max(0, limit - 25 * k)
            && (quiet ==> left == Max(0, limit - 25 * k))
  {
    if k > 0 {
      SweepsDrain(states, cutoffs, quiet, k - 1);
      SweepAt(states, cutoffs, {}, quiet, k - 1);
      SweepDrains(states[k - 1], states[k], cutoffs[0], cutoffs[k - 1], quiet);
    }
  }

  lemma {:induction false} SweepDrains(before: Registry, after: Registry, first: int, cutoff: int, quiet: bool)
    requires IsSweep(before, after, cutoff, {}, quiet) && first <= cutoff
    ensures var left, limit := |EligibleIds(after, first)|, |EligibleIds(before, first)|;
            && left <= LeftOver(limit, AUTO_ARCHIVE_BATCH)
            && (quiet ==> left == LeftOver(limit, AUTO_ARCHIVE_BATCH))
  {
    hide EligibleIds, AfterBatch, Drifts;
    var batch :| SweptBy(batch, before, after, cutoff, {}, quiet);
    SweepLeaves(before, after, batch, first, cutoff, {}, quiet);
    OldestTaken(before, batch, first, cutoff);
    var early, taken := EligibleIds(before, first), Ids(batch);
    assert early - (taken - {}) == early - taken * early;
    CountAfterRemoval(early, taken * early);
    Subset(EligibleIds(after, first), early - taken * early);
  }

  // ---------- threads held back ----------

  /** Eligible threads that nothing holds back. */
  function FreeIds(rows: Registry, cutoff: int, held: set<Id>): set<Id> {
    EligibleIds(rows, cutoff) - held
  }

  function HeldIds(rows: Registry, cutoff: int, held: set<Id>): set<Id> {
    EligibleIds(rows, cutoff) * held
  }

  /** A full batch holds at most the held threads back; the rest of it is processed. */
  lemma {:induction false} FreedCount(eligible: set<Id>, held: set<Id>, taken: set<Id>, stuck: nat)
    requires taken <= eligible && |taken| == Min(AUTO_ARCHIVE_BATCH, |eligible|)
    requires |eligible * held| <= stuck <= AUTO_ARCHIVE_BATCH
    ensures |eligible - held - taken| <= LeftOver(|eligible - held|, AUTO_ARCHIVE_BATCH - stuck)
  {
    Partition(taken, held);
    Partition(eligible, held);
    Subset(taken * held, eligible * held);
    CountAfterRemoval(eligible - held, taken - held);
    assert eligible - held - taken == eligible - held - (taken - held);
    if |eligible| <= AUTO_ARCHIVE_BATCH {
      WholeSet(taken, eligible);
    }
  }

  lemma {:induction false} Partition(ids: set<Id>, held: set<Id>)
    ensures |ids| == |ids - held| + |ids * held|
  {
    assert ids == (ids - held) + ids * held;
  }

  lemma {:induction false} WholeSet(part: set<Id>, whole: set<Id>)
    requires part <= whole && |part| == |whole|
    ensures part == whole
  {
    assert whole == part + (whole - part);
  }

  /** With `limit` threads to process at `rate` a sweep, at most these are left after `k` sweeps. */
  function LeftAfter(limit: nat, rate: nat, k: nat): nat {
    LeftOver(limit, rate * k)
  }

  lemma {:induction false} LeftAfterNext(limit: nat, rate: nat, k: nat, before: nat, after: nat)
    requires before <= LeftAfter(limit, rate, k) && after <= LeftOver(before, rate)
    ensures after <= LeftAfter(limit, rate, k + 1)
  {
    assert rate * (k + 1) == rate * k + rate;
  }

  lemma {:induction false} LeftAtFirst(limit: nat, rate: nat)
    ensures LeftAfter(limit, rate, 0) == limit
  {
  }

  lemma {:induction false} LeftAfterIs(limit: nat, rate: nat, k: nat)
    ensures LeftAfter(limit, rate, k) == Max(0, limit - rate * k)
  {
  }

  /** With `stuck` threads held back, at most 25, every sweep makes progress on the rest: after `k`
      sweeps all but `n - (25 - stuck)k` of the `n` free threads eligible at first are gone. */
  lemma {:induction false} HeldSweepsDrain(
    states: seq<Registry>, cutoffs: seq<int>, held: set<Id>, quiet: bool, stuck: nat, k: nat)
    requires Sweeps(states, cutoffs, held, quiet) && k < |states|
    requires |HeldIds(states[0], cutoffs[0], held)| <= stuck <= AUTO_ARCHIVE_BATCH
    ensures HeldIds(states[k], cutoffs[0], held) <= HeldIds(states[0], cutoffs[0], held)
    ensures quiet ==> HeldIds(states[k], cutoffs[0], held) == HeldIds(states[0], cutoffs[0], held)
    ensures |FreeIds(states[k], cutoffs[0], held)|
            <= Max(0, |FreeIds(states[0], cutoffs[0], held)| - (25 - stuck) * k)
  {
    hide EligibleIds, IsSweep, LeftAfter;
    var first := cutoffs[0];
    LeftAfterIs(|FreeIds(states[0], first, held)|, 25 - stuck, k);
    if k == 0 {
      LeftAtFirst(|FreeIds(states[0], first, held)|, AUTO_ARCHIVE_BATCH - stuck);
    } else {
      SweepAt(states, cutoffs, held, quiet, k - 1);
      HeldSweepsDrain(states, cutoffs, held, quiet, stuck, k - 1);
      LeftAfterIs(|FreeIds(states[0], first, held)|, 25 - stuck, k - 1);
      Subset(HeldIds(states[k - 1], first, held), HeldIds(states[0], first, held));
      HeldSweepStep(states[k - 1], states[k], first, cutoffs[k - 1], held, quiet, stuck);
      LeftAfterNext(|FreeIds(states[0], first, held)|, AUTO_ARCHIVE_BATCH - stuck, k - 1,
                    |FreeIds(states[k - 1], first, held)|, |FreeIds(states[k], first, held)|);
    }
  }

  lemma {:induction false} HeldSweepStep(
    before: Registry, after: Registry, first: int, cutoff: int, held: set<Id>, quiet: bool, stuck: nat)
    requires IsSweep(before, after, cutoff, held, quiet) && first <= cutoff
    requires |HeldIds(before, first, held)| <= stuck <= AUTO_ARCHIVE_BATCH
    ensures HeldIds(after, first, held) <= HeldIds(before, first, held)
    ensures quiet ==> HeldIds(after, first, held) == HeldIds(before, first, held)
    ensures |FreeIds(after, first, held)| <= LeftOver(|FreeIds(before, first, held)|, AUTO_ARCHIVE_BATCH - stuck)
  {
    hide EligibleIds, AfterBatch, Drifts;
    var batch :| SweptBy(batch, before, after, cutoff, held, quiet);
    SweepLeaves(before, after, batch, first, cutoff, held, quiet);
    OldestTaken(before, batch, first, cutoff);
    var early, taken := EligibleIds(before, first), Ids(batch);
    FreedCount(early, held, taken * early, stuck);
    Subset(FreeIds(after, first, held), early - held - taken * early);
  }

  // ---------- starvation ----------

  /** Members of a set no younger than a thread, by the sweep's order. */
  function NoYounger(rows: Registry, ids: set<Id>, x: Id): set<Id>
    requires ids <= rows.Keys && x in rows
  {
    set id | id in ids && rows[id].updatedAt <= rows[x].updatedAt
  }

  /** Free threads the sweep may still take before `x`, and `x` itself. */
  function Ahead(rows: Registry, cutoff: int, held: set<Id>, x: Id): set<Id>
    requires x in rows
  {
    NoYounger(rows, FreeIds(rows, cutoff, held), x)
  }

  /** Held threads the sweep may take before `x`. */
  function Blocking(rows: Registry, cutoff: int, held: set<Id>, x: Id): set<Id>
    requires x in rows
  {
    NoYounger(rows, HeldIds(rows, cutoff, held), x)
  }

  /** However the cutoffs advance and whatever happens between sweeps, by state `n` the thread no longer
      waits as it did: it has been processed, unless it was touched, archived or removed before. */
  ghost predicate SettledBy(rows: Registry, first: int, held: set<Id>, x: Id, n: nat) {
    forall states, cutoffs ::
      Sweeps(states, cutoffs, held, false) && states[0] == rows && cutoffs[0] == first && n < |states| ==>
      x !in EligibleIds(states[n], first)
  }

  /** A batch that leaves `x` out while at most 24 held threads may precede it processes another free thread. */
  lemma {:induction false} BatchPassesOver(
    rows: Registry, batch: seq<Id>, first: int, cutoff: int, held: set<Id>, x: Id)
    returns (y: Id)
    requires IsBatch(batch, rows, EligibleIds(rows, cutoff)) && first <= cutoff
    requires x in FreeIds(rows, first, held) && x !in Ids(batch)
    requires |Blocking(rows, first, held, x)| < AUTO_ARCHIVE_BATCH
    ensures y in Ids(batch) && y in Ahead(rows, first, held, x)
  {
    LeftOut(rows, batch, first, cutoff, x);
    var taken, blocking := Ids(batch), Blocking(rows, first, held, x);
    if taken <= blocking {
      Subset(taken, blocking);
    }
    y :| y in taken && y !in blocking;
  }

  /** While `x` goes on waiting, a sweep takes one of the free threads ahead of it and adds nobody. */
  lemma {:induction false} AheadShrinks(before: Registry, after: Registry, batch: seq<Id>, first: int, cutoff: int,
        held: set<Id>, x: Id)
    requires SweptBy(batch, before, after, cutoff, held, false) && first <= cutoff
    requires x in FreeIds(before, first, held) && x in EligibleIds(after, first)
    requires |Blocking(before, first, held, x)| < AUTO_ARCHIVE_BATCH
    ensures x in FreeIds(after, first, held)
    ensures Blocking(after, first, held, x) <= Blocking(before, first, held, x)
    ensures |Ahead(after, first, held, x)| < |Ahead(before, first, held, x)|
  {
    SweepLeaves(before, after, batch, first, cutoff, held, false);
    var y := BatchPassesOver(before, batch, first, cutoff, held, x);
    Subset(Ahead(after, first, held, x), Ahead(before, first, held, x) - {y});
  }

  lemma {:induction false} StaysSettled(states: seq<Registry>, cutoffs: seq<int>, held: set<Id>, k: nat)
    requires Sweeps(states, cutoffs, held, false) && k + 1 < |states|
    ensures EligibleIds(states[k + 1], cutoffs[0]) <= EligibleIds(states[k], cutoffs[0])
  {
    SweepAt(states, cutoffs, held, false, k);
    var batch :| SweptBy(batch, states[k], states[k + 1], cutoffs[k], held, false);
    SweepLeaves(states[k], states[k + 1], batch, cutoffs[0], cutoffs[k], held, false);
  }

  /** While `x` waits, the free threads ahead of it run out one by one. */
  lemma {:induction false} WaitingShrinks(states: seq<Registry>, cutoffs: seq<int>, held: set<Id>, x: Id, n: nat)
    requires Sweeps(states, cutoffs, held, false) && n < |states| && x in FreeIds(states[0], cutoffs[0], held)
    requires |Blocking(states[0], cutoffs[0], held, x)| < AUTO_ARCHIVE_BATCH
    requires x in EligibleIds(states[n], cutoffs[0])
    ensures x in FreeIds(states[n], cutoffs[0], held)
    ensures |Blocking(states[n], cutoffs[0], held, x)| < AUTO_ARCHIVE_BATCH
    ensures |Ahead(states[n], cutoffs[0], held, x)| + n <= |Ahead(states[0], cutoffs[0], held, x)|
  {
    if n > 0 {
      hide Sweeps, EligibleIds, Blocking, Ahead, IsBatch, AfterBatch, Drifts;
      var first := cutoffs[0];
      StaysSettled(states, cutoffs, held, n - 1);
      WaitingShrinks(states, cutoffs, held, x, n - 1);
      SweepAt(states, cutoffs, held, false, n - 1);
      var batch :| SweptBy(batch, states[n - 1], states[n], cutoffs[n - 1], held, false);
      AheadShrinks(states[n - 1], states[n], batch, first, cutoffs[n - 1], held, x);
      Subset(Blocking(states[n], first, held, x), Blocking(states[n - 1], first, held, x));
    }
  }

  lemma {:induction false} WaitsNotLong(states: seq<Registry>, cutoffs: seq<int>, held: set<Id>, x: Id, n: nat)
    requires Sweeps(states, cutoffs, held, false) && n < |states| && x in FreeIds(states[0], cutoffs[0], held)
    requires |Blocking(states[0], cutoffs[0], held, x)| < AUTO_ARCHIVE_BATCH
    ensures x in EligibleIds(states[n], cutoffs[0]) ==> n < |Ahead(states[0], cutoffs[0], held, x)|
  {
    if x in EligibleIds(states[n], cutoffs[0]) {
      WaitingShrinks(states, cutoffs, held, x, n);
      assert x in Ahead(states[n], cutoffs[0], held, x);
    }
  }

  lemma {:induction false} FewBlockersFree(rows: Registry, first: int, held: set<Id>, x: Id)
    requires x in FreeIds(rows, first, held) && |Blocking(rows, first, held, x)| < AUTO_ARCHIVE_BATCH
    ensures SettledBy(rows, first, held, x, |Ahead(rows, first, held, x)|)
  {
    var n := |Ahead(rows, first, held, x)|;
    forall states, cutoffs |
      Sweeps(states, cutoffs, held, false) && states[0] == rows && cutoffs[0] == first && n < |states|
      ensures x !in EligibleIds(states[n], first)
    {
      WaitsNotLong(states, cutoffs, held, x, n);
    }
  }

  // ---------- a run that never reaches the thread ----------

  lemma {:induction false} OldestOf(rows: Registry, pool: set<Id>) returns (id: Id)
    requires pool != {} && pool <= rows.Keys
    ensures id in pool && forall other :: other in pool ==> rows[id].updatedAt <= rows[other].updatedAt
    decreases |pool|
  {
    id :| id in pool;
    if pool - {id} != {} {
      var other := OldestOf(rows, pool - {id});
      if rows[other].updatedAt < rows[id].updatedAt {
        id := other;
      }
    }
  }

  lemma {:induction false} TakeSome(rows: Registry, pool: set<Id>, n: nat) returns (batch: seq<Id>, left: set<Id>)
    requires pool <= rows.Keys && n <= |pool|
    ensures |batch| == n && Taken(batch, left, rows, pool)
  {
    if n == 0 {
      NothingTaken(rows, pool);
      batch, left := [], pool;
    } else {
      batch, left := TakeSome(rows, pool, n - 1);
      var id := OldestOf(rows, left);
      TakeOldest(batch, left, rows, pool, id);
      batch, left := batch + [id], left - {id};
    }
  }

  lemma {:induction false} TakenIsOld(rows: Registry, batch: seq<Id>, left: set<Id>, pool: set<Id>,
        blockers: set<Id>, x: Id, i: nat)
    requires Taken(batch, left, rows, pool) && |batch| == AUTO_ARCHIVE_BATCH && i < |batch| && x in rows
    requires blockers <= pool && |blockers| >= AUTO_ARCHIVE_BATCH
    requires forall b :: b in blockers ==> rows[b].updatedAt <= rows[x].updatedAt
    ensures rows[batch[i]].updatedAt <= rows[x].updatedAt
  {
    DistinctCount(batch);
    Member(batch, i);
    if rows[batch[i]].updatedAt > rows[x].updatedAt {
      forall b | b in blockers ensures b in Ids(batch) - {batch[i]} {
        assert b in left || b in Ids(batch);
      }
      Subset(blockers, Ids(batch) - {batch[i]});
    }
  }

  /** With 25 held threads no younger than `x`, some valid batch leaves `x` out. */
  lemma {:induction false} BatchWithout(rows: Registry, cutoff: int, held: set<Id>, x: Id) returns (batch: seq<Id>)
    requires x in FreeIds(rows, cutoff, held) && |Blocking(rows, cutoff, held, x)| >= AUTO_ARCHIVE_BATCH
    ensures IsBatch(batch, rows, EligibleIds(rows, cutoff)) && x !in Ids(batch)
  {
    var eligible := EligibleIds(rows, cutoff);
    var pool, blockers := eligible - {x}, Blocking(rows, cutoff, held, x);
    Subset(blockers, pool);
    var left;
    batch, left := TakeSome(rows, pool, AUTO_ARCHIVE_BATCH);
    Subset(pool, eligible);
    forall i, id | 0 <= i < |batch| && id in eligible - Ids(batch)
      ensures rows[batch[i]].updatedAt <= rows[id].updatedAt
    {
      if id == x {
        TakenIsOld(rows, batch, left, pool, blockers, x, i);
      } else {
        assert id in left;
      }
    }
  }

  function Constant(cutoff: int, n: nat): seq<int> {
    seq(n, i => cutoff)
  }

  /** And so sweeps can go on for any length without reaching `x`, though nothing else happens. */
  lemma {:induction false} ManyBlockersStarve(rows: Registry, cutoff: int, held: set<Id>, x: Id, n: nat)
    returns (states: seq<Registry>)
    requires x in FreeIds(rows, cutoff, held) && |Blocking(rows, cutoff, held, x)| >= AUTO_ARCHIVE_BATCH
    ensures Sweeps(states, Constant(cutoff, n + 1), held, true) && |states| == n + 1 && states[0] == rows
    ensures x in FreeIds(states[n], cutoff, held)
    ensures Blocking(states[n], cutoff, held, x) == Blocking(rows, cutoff, held, x)
  {
    if n == 0 {
      states := [rows];
    } else {
      var front := ManyBlockersStarve(rows, cutoff, held, x, n - 1);
      var last := front[n - 1];
      var batch := BatchWithout(last, cutoff, held, x);
      var after := AfterBatch(last, Ids(batch), held);
      assert SweptBy(batch, last, after, cutoff, held, true);
      states := front + [after];
      SweepsGrow(front, after, cutoff, held);
      BlockersStay(last, after, batch, cutoff, held, x);
    }
  }

  lemma {:induction false} BlockersStay(
    before: Registry, after: Registry, batch: seq<Id>, cutoff: int, held: set<Id>, x: Id)
    requires SweptBy(batch, before, after, cutoff, held, true)
    requires x in FreeIds(before, cutoff, held) && x !in Ids(batch)
    ensures x in FreeIds(after, cutoff, held)
    ensures Blocking(after, cutoff, held, x) == Blocking(before, cutoff, held, x)
  {
    SweepLeaves(before, after, batch, cutoff, cutoff, held, true);
  }

  lemma {:induction false} SweepsGrow(states: seq<Registry>, after: Registry, cutoff: int, held: set<Id>)
    requires Sweeps(states, Constant(cutoff, |states|), held, true)
    requires IsSweep(states[|states| - 1], after, cutoff, held, true)
    ensures Sweeps(states + [after], Constant(cutoff, |states| + 1), held, true)
  {
  }

  /** A free thread is sure to be settled in the end, whichever of equally old threads the batches prefer,
      exactly when fewer than 25 threads that stay mid-turn or keep throwing are as old. */
  lemma {:induction false} StarvesExactly(rows: Registry, cutoff: int, held: set<Id>, x: Id)
    requires x in FreeIds(rows, cutoff, held)
    ensures (exists n: nat :: SettledBy(rows, cutoff, held, x, n))
            <==> |Blocking(rows, cutoff, held, x)| < 25
  {
    if |Blocking(rows, cutoff, held, x)| < AUTO_ARCHIVE_BATCH {
      FewBlockersFree(rows, cutoff, held, x);
    } else {
      forall n: nat ensures !SettledBy(rows, cutoff, held, x, n) {
        var states := ManyBlockersStarve(rows, cutoff, held, x, n);
        QuietDrifts(states, Constant(cutoff, n + 1), held);
      }
    }
  }

  // ---------- a registry in which it happens ----------

  function Name(i: nat): Id {
    seq(i + 1, k => 'h')
  }

  function Names(n: nat): set<Id> {
    if n == 0 then {} else Names(n - 1) + {Name(n - 1)}
  }

  lemma {:induction false} NamesCount(n: nat)
    ensures |Names(n)| == n && forall id :: id in Names(n) ==> 0 < |id| <= n
  {
    if n > 0 {
      NamesCount(n - 1);
      assert |Name(n - 1)| == n;
    }
  }

  /** A thread last touched at `at`. */
  function Idle(at: int): Thread {
    Thread(at, false, 0, false, false)
  }

  /** `n` threads that never archive, and a younger one behind them. */
  function Jammed(n: nat): Registry {
    map id | id in Names(n) + {""} :: Idle(if id == "" then 2 else 1)
  }

  lemma {:induction false} JammedShape(n: nat)
    ensures "" in FreeIds(Jammed(n), 3, Names(n))
    ensures Blocking(Jammed(n), 3, Names(n), "") == Names(n)
  {
    NamesCount(n);
    var rows := Jammed(n);
    assert "" !in Names(n);
    assert EligibleIds(rows, 3) == Names(n) + {""};
  }

  /** Behind 25 such threads the last one is never reached, however many sweeps run. */
  lemma {:induction false} JammedStarves(n: nat)
    ensures "" in FreeIds(Jammed(AUTO_ARCHIVE_BATCH), 3, Names(AUTO_ARCHIVE_BATCH))
    ensures !SettledBy(Jammed(AUTO_ARCHIVE_BATCH), 3, Names(AUTO_ARCHIVE_BATCH), "", n)
  {
    JammedShape(AUTO_ARCHIVE_BATCH);
    NamesCount(AUTO_ARCHIVE_BATCH);
    StarvesExactly(Jammed(AUTO_ARCHIVE_BATCH), 3, Names(AUTO_ARCHIVE_BATCH), "");
  }
}
