/**
 Every run of the queue keeps the messages: nothing is lost, repeated or reordered, whatever the
 drain loop does at the awaits of submit and cancel.
 */
module QueueSafety {
  import opened Wrappers
  import opened QueuedMessages
  import opened QueueProtocol

  lemma {:induction false} InitialTranscript()
    ensures TranscriptOk(Initial)
  {
  }

  lemma {:induction false} InitialLedger()
    ensures LedgerOk(Initial)
  {
  }

  lemma {:induction false} InitialInv()
    ensures Inv(Initial)
  {
    hide TranscriptOk, LedgerOk;
    InitialTranscript();
    InitialLedger();
  }

  // ---------- drain loop steps ----------

  /** What drain loop steps do to the store, seen from a suspended call. */
  predicate Evolves(a: seq<Submission>, b: seq<Submission>) {
    && |a| <= |b|
    && (forall i :: 0 <= i < |a| ==> SameSubmission(a[i], b[i]) && a[i].applied <= b[i].applied)
    && (forall i :: |a| <= i < |b| ==> !b[i].metadata.Batch?)
  }

  lemma {:induction false} SuspendedCallSurvives(s: State, t: State)
    requires RpcOk(s) && t.rpc == s.rpc && Evolves(s.store, t.store)
    ensures RpcOk(t)
  {
    if NoneWaiting(s.store) {
      forall i | 0 <= i < |t.store| ensures !IsWaiting(t.store[i]) {
        if i < |s.store| {
          assert !IsWaiting(s.store[i]);
        }
      }
    }
    if s.rpc.SubmitFound? {
      forall i | 0 <= i < |t.store| && IsWaiting(t.store[i]) ensures i < |s.store| && IsWaiting(s.store[i]) {
      }
    }
  }

  /** A status change that keeps a row live or not live is invisible to the invariant. */
  lemma {:induction false} StatusChangeKeepsInv(s: State, i: nat, x: Submission)
    requires Inv(s) && i < |s.store| && RowOk(x)
    requires SameSubmission(s.store[i], x) && x.applied == s.store[i].applied
    ensures Inv(s.(store := s.store[i := x]))
  {
    var t := s.(store := s.store[i := x]);
    StatusChangeKeepsGather(s.store, i, x);
    SameWhole(s, t);
    SuspendedCallSurvives(s, t);
    UnrelatedFreeSame(s.store, t.store, ReservedIds(s));
    SameReserved(s, t);
    StatusChangeKeepsSequential(s.store, i, x);
    UpdateKeepsRows(s.store, i, x);
  }

  lemma {:induction false} StatusChangeKeepsGather(store: seq<Submission>, i: nat, x: Submission)
    requires i < |store| && SameSubmission(store[i], x) && x.applied == store[i].applied
    ensures Gather(store[i := x], Whole) == Gather(store, Whole)
    ensures Gather(store[i := x], AppliedPart) == Gather(store, AppliedPart)
  {
    GatherSame(store, store[i := x], Whole);
    GatherSame(store, store[i := x], AppliedPart);
  }

  lemma {:induction false} UpdateKeepsRows(store: seq<Submission>, i: nat, x: Submission)
    requires RowsOk(store) && i < |store| && RowOk(x)
    ensures RowsOk(store[i := x])
  {
  }

  lemma {:induction false} SameReserved(s: State, t: State)
    requires t.submitted == s.submitted && t.rpc == s.rpc
    ensures ReservedIds(t) == ReservedIds(s)
  {
  }

  lemma {:induction false} StatusChangeKeepsSequential(store: seq<Submission>, i: nat, x: Submission)
    requires Sequential(store) && i < |store|
    requires SameSubmission(store[i], x) && x.applied == store[i].applied
    ensures Sequential(store[i := x])
  {
  }

  lemma {:induction false} FromQueueAppend(transcript: seq<Entry>, e: Entry)
    ensures FromQueue(transcript + [e]) == FromQueue(transcript) + (if e.fromQueue then [e.message] else [])
  {
    assert (transcript + [e])[..|transcript|] == transcript;
  }

  /** The state after the drain loop applied one message of submission `i`. */
  function AfterApply(s: State, i: nat): State
    requires MayApply(s.store, i)
  {
    var sub := s.store[i];
    State(s.store[i := Applied(sub)], s.transcript + [Entry(sub.messages[sub.applied], sub.metadata.Batch?)],
          s.rpc, s.submitted, s.cancelled)
  }

  lemma {:induction false} ApplyKeepsInv(s: State, i: nat)
    requires Inv(s) && MayApply(s.store, i)
    ensures Inv(EnvNext(s, ApplyNext(i)))
  {
    var t := AfterApply(s, i);
    assert EnvNext(s, ApplyNext(i)) == t;
    ApplyKeepsRow(s.store, i);
    UpdateKeepsRows(s.store, i, Applied(s.store[i]));
    ApplyKeepsSequential(s.store, i);
    ApplyKeepsTranscript(s, i);
    ApplyKeepsWhole(s.store, i);
    SameWhole(s, t);
    ApplyEvolves(s.store, i);
    SuspendedCallSurvives(s, t);
  }

  /** A step that leaves the store's messages and the call alone keeps the ledger. */
  lemma {:induction false} SameWhole(s: State, t: State)
    requires LedgerOk(s) && t.rpc == s.rpc && t.submitted == s.submitted && t.cancelled == s.cancelled
    requires Gather(t.store, Whole) == Gather(s.store, Whole)
    ensures LedgerOk(t)
  {
  }

  function Applied(sub: Submission): Submission
    requires sub.applied < |sub.messages|
  {
    sub.(applied := sub.applied + 1)
  }

  lemma {:induction false} ApplyKeepsRow(store: seq<Submission>, i: nat)
    requires RowsOk(store) && MayApply(store, i)
    ensures RowOk(Applied(store[i])) && (store[i].metadata.Batch? ==> Live(store[i]))
  {
    assert RowOk(store[i]);
  }

  lemma {:induction false} ApplyKeepsWhole(store: seq<Submission>, i: nat)
    requires MayApply(store, i)
    ensures Gather(store[i := Applied(store[i])], Whole) == Gather(store, Whole)
  {
    GatherSame(store, store[i := Applied(store[i])], Whole);
  }

  lemma {:induction false} ApplyEvolves(store: seq<Submission>, i: nat)
    requires MayApply(store, i)
    ensures Evolves(store, store[i := Applied(store[i])])
  {
  }

  lemma {:induction false} OthersFreeAppend(transcript: seq<Entry>, e: Entry, ids: set<string>)
    requires OthersFree(transcript, ids) && (e.fromQueue || e.message.id !in ids)
    ensures OthersFree(transcript + [e], ids)
  {
  }

  lemma {:induction false} UnrelatedIdFree(store: seq<Submission>, i: nat, ids: set<string>)
    requires UnrelatedFree(store, ids) && MayApply(store, i) && !store[i].metadata.Batch?
    ensures store[i].messages[store[i].applied].id !in ids
  {
    var m := store[i].messages[store[i].applied];
    assert m in store[i].messages;
    assert m.id in IdsOf(store[i].messages);
  }

  lemma {:induction false} ApplyKeepsTranscript(s: State, i: nat)
    requires RowsOk(s.store) && Sequential(s.store) && TranscriptOk(s) && MayApply(s.store, i)
    ensures TranscriptOk(AfterApply(s, i))
  {
    var sub, ids := s.store[i], ReservedIds(s);
    var e := Entry(sub.messages[sub.applied], sub.metadata.Batch?);
    FromQueueAppend(s.transcript, e);
    ApplyKeepsRow(s.store, i);
    ApplyGrowsAppliedPart(s.store, i, Applied(sub));
    UnrelatedFreeSame(s.store, s.store[i := Applied(sub)], ids);
    SameReserved(s, AfterApply(s, i));
    if !sub.metadata.Batch? {
      UnrelatedIdFree(s.store, i, ids);
    }
    OthersFreeAppend(s.transcript, e, ids);
  }

  lemma {:induction false} ApplyKeepsSequential(store: seq<Submission>, i: nat)
    requires RowsOk(store) && Sequential(store) && MayApply(store, i)
    ensures Sequential(store[i := Applied(store[i])])
  {
    var now := store[i := Applied(store[i])];
    forall p, q | 0 <= p < q < |now| && Live(now[p]) && Live(now[q])
      ensures now[p].applied > 0
      ensures now[q].applied > 0 ==> now[p].applied == |now[p].messages|
    {
      assert Live(store[p]) && Live(store[q]);
      assert RowOk(store[p]);
      if q == i {
        assert !IsPartial(store[p]);
      }
    }
  }

  lemma {:induction false} OneMoreApplied(sub: Submission, x: Submission)
    requires Live(sub) && sub.applied < |sub.messages| && x == sub.(applied := sub.applied + 1)
    ensures AppliedPart(x) == AppliedPart(sub) + [sub.messages[sub.applied]]
  {
  }

  lemma {:induction false} ApplyGrowsAppliedPart(store: seq<Submission>, i: nat, x: Submission)
    requires Sequential(store) && i < |store| && store[i].applied < |store[i].messages|
    requires store[i].metadata.Batch? ==> Live(store[i])
    requires x == store[i].(applied := store[i].applied + 1)
    ensures Gather(store[i := x], AppliedPart)
            == Gather(store, AppliedPart) + (if x.metadata.Batch? then [x.messages[store[i].applied]] else [])
  {
    var sub, store' := store[i], store[i := x];
    if Live(sub) {
      forall j | i < j < |store| ensures AppliedPart(store[j]) == [] {
      }
      GatherUpTo(store, i, AppliedPart);
      GatherUpTo(store', i, AppliedPart);
      assert store'[..i] == store[..i];
      OneMoreApplied(sub, x);
      Regroup(Gather(store[..i], AppliedPart), AppliedPart(sub), [sub.messages[sub.applied]]);
    } else {
      GatherSame(store, store', AppliedPart);
    }
  }

  lemma {:induction false} SubmitUnrelatedKeepsInv(s: State, messages: seq<Message>, createdAt: int)
    requires Inv(s) && IdsOf(messages) !! ReservedIds(s)
    ensures Inv(EnvNext(s, SubmitUnrelated(messages, createdAt)))
  {
    var x: Submission := SubmissionRow(Pending, Some(createdAt), Unrelated, messages, 0);
    var t := s.(store := s.store + [x]);
    GatherAppendNothing(s.store, x, Whole);
    GatherAppendNothing(s.store, x, AppliedPart);
    SameWhole(s, t);
    AppendEvolves(s.store, x);
    SuspendedCallSurvives(s, t);
    SameReserved(s, t);
    AppendedRow(s.store, x, ReservedIds(s));
    AppendKeepsRows(s.store, x);
  }

  lemma {:induction false} AppendEvolves(store: seq<Submission>, x: Submission)
    requires !x.metadata.Batch?
    ensures Evolves(store, store + [x])
  {
  }

  lemma {:induction false} AppendKeepsRows(store: seq<Submission>, x: Submission)
    requires RowsOk(store) && RowOk(x)
    ensures RowsOk(store + [x])
  {
  }

  lemma {:induction false} AppendedRow(store: seq<Submission>, x: Submission, ids: set<string>)
    requires Sequential(store) && UnrelatedFree(store, ids)
    requires x.metadata.Unrelated? && IdsOf(x.messages) !! ids
    ensures Sequential(store + [x]) && UnrelatedFree(store + [x], ids)
  {
  }

  lemma {:induction false} AppendUnrelatedKeepsInv(s: State, m: Message)
    requires Inv(s) && m.id !in ReservedIds(s)
    ensures Inv(EnvNext(s, AppendUnrelated(m)))
  {
    var e := Entry(m, false);
    var t := s.(transcript := s.transcript + [e]);
    FromQueueAppend(s.transcript, e);
    SameReserved(s, t);
    OthersFreeAppend(s.transcript, e, ReservedIds(s));
  }

  lemma {:induction false} ClaimKeepsInv(s: State, i: nat)
    requires Inv(s) && i < |s.store| && s.store[i].status.Pending?
    ensures Inv(s.(store := s.store[i := s.store[i].(status := Running)]))
  {
    assert RowOk(s.store[i]);
    StatusChangeKeepsInv(s, i, s.store[i].(status := Running));
  }

  lemma {:induction false} FinishKeepsInv(s: State, i: nat)
    requires Inv(s) && i < |s.store| && s.store[i].status.Running? && s.store[i].applied == |s.store[i].messages|
    ensures Inv(s.(store := s.store[i := s.store[i].(status := Completed)]))
  {
    assert RowOk(s.store[i]);
    StatusChangeKeepsInv(s, i, s.store[i].(status := Completed));
  }

  lemma {:induction false} EnvKeepsInv(s: State, step: EnvStep)
    requires Inv(s)
    ensures Inv(EnvNext(s, step))
  {
    if EnvNext(s, step) != s {
      match step
      case Claim(i) => ClaimKeepsInv(s, i);
      case ApplyNext(i) => ApplyKeepsInv(s, i);
      case Finish(i) => FinishKeepsInv(s, i);
      case SubmitUnrelated(messages, createdAt) => SubmitUnrelatedKeepsInv(s, messages, createdAt);
      case AppendUnrelated(m) => AppendUnrelatedKeepsInv(s, m);
    }
  }

  // ---------- queue calls ----------

  lemma {:induction false} SnapshotNow(store: seq<Submission>)
    requires RowsOk(store)
    ensures SnapshotOk(store, store)
  {
    forall i | 0 <= i < |store| && store[i].status.Completed? ensures store[i].applied == |store[i].messages| {
      assert RowOk(store[i]);
    }
  }

  lemma {:induction false} ListedKeepsInv(s: State, now: int)
    requires Inv(s) && s.rpc.SubmitListing?
    ensures Inv(Resume(s, now))
  {
    SnapshotNow(s.store);
    var t := s.(rpc := SubmitListed(s.rpc.n, s.rpc.feedback, s.store));
    SameIds(s, t);
  }

  /** A call that moves on without sending keeps the ids and messages it stands for. */
  lemma {:induction false} SameIds(s: State, t: State)
    requires s.rpc.SubmitListing? && t.rpc.SubmitListed? && t.rpc.n == s.rpc.n && t.submitted == s.submitted
    ensures ReservedIds(t) == ReservedIds(s) && Held(t.rpc) == Held(s.rpc)
  {
  }

  /** A snapshot row counts as mergeable exactly when its submission is waiting now. */
  lemma {:induction false} MergeableIsWaiting(s: State, snapshot: seq<Submission>, i: nat)
    requires Inv(s) && SnapshotOk(snapshot, s.store) && i < |snapshot|
    ensures Mergeable(snapshot[i], AppliedIds(s)) ==> Live(s.store[i])
    ensures Live(s.store[i]) ==> (Mergeable(snapshot[i], AppliedIds(s)) <==> IsWaiting(s.store[i]))
  {
    assert RowOk(s.store[i]) && SameSubmission(snapshot[i], s.store[i]);
    if Live(s.store[i]) {
      AppliedCheckExact(s, i);
    }
  }

  lemma {:induction false} OneWaiting(store: seq<Submission>, i: nat, k: nat)
    requires Sequential(store) && i < |store| && k < |store| && IsWaiting(store[i]) && IsWaiting(store[k])
    ensures i == k
  {
  }

  lemma {:induction false} WaitingInSnapshot(snapshot: seq<Submission>, store: seq<Submission>, i: nat)
    requires SnapshotOk(snapshot, store) && i < |store| && IsWaiting(store[i])
    ensures i < |snapshot|
  {
  }

  lemma {:induction false} LatestIsLive(s: State, snapshot: seq<Submission>)
    requires Inv(s) && SnapshotOk(snapshot, s.store)
    ensures var w := LatestWaiting(snapshot, AppliedIds(s));
            w.Some? ==>
              var k := w.value.submissionId;
              && k < |s.store| && IsWaiting(s.store[k])
              && w.value.items == s.store[k].metadata.items && w.value.messages == s.store[k].messages
  {
    var w := LatestWaiting(snapshot, AppliedIds(s));
    if w.Some? {
      var k := w.value.submissionId;
      MergeableIsWaiting(s, snapshot, k);
      assert RowOk(s.store[k]) && SameSubmission(snapshot[k], s.store[k]);
    }
  }

  lemma {:induction false} LatestIsWaiting(s: State, snapshot: seq<Submission>)
    requires Inv(s) && SnapshotOk(snapshot, s.store)
    ensures WaitingOk(LatestWaiting(snapshot, AppliedIds(s)), s.store)
  {
    var w := LatestWaiting(snapshot, AppliedIds(s));
    LatestIsLive(s, snapshot);
    forall i | 0 <= i < |s.store| && IsWaiting(s.store[i]) ensures w.Some? && w.value.submissionId == i {
      WaitingInSnapshot(snapshot, s.store, i);
      MergeableIsWaiting(s, snapshot, i);
      assert w.Some?;
      OneWaiting(s.store, i, w.value.submissionId);
    }
  }

  /** The stale snapshot still leads to the one batch that is waiting when the call resumes. */
  lemma {:induction false} FoundKeepsInv(s: State, now: int)
    requires Inv(s) && s.rpc.SubmitListed?
    ensures Inv(Resume(s, now))
  {
    LatestIsWaiting(s, s.rpc.snapshot);
  }

  /** Aborting the waiting batch takes its messages, the last ones, out of the store. */
  lemma {:induction false} AbortWaiting(store: seq<Submission>, i: nat)
    requires Sequential(store) && i < |store| && IsWaiting(store[i]) && !store[i].status.Completed?
    ensures var store' := CancelSubmission(store, i);
            && store' == store[i := store[i].(status := Aborted)]
            && Gather(store, Whole) == Gather(store', Whole) + store[i].messages
            && Gather(store', AppliedPart) == Gather(store, AppliedPart)
            && Sequential(store') && NoneWaiting(store')
  {
    var x: Submission := store[i].(status := Aborted);
    AbortDropsWhole(store, i, x);
    AbortKeepsApplied(store, i, x);
    AbortKeepsSequential(store, i, x);
  }

  lemma {:induction false} AbortDropsWhole(store: seq<Submission>, i: nat, x: Submission)
    requires Sequential(store) && i < |store| && IsWaiting(store[i]) && !Live(x)
    ensures Gather(store, Whole) == Gather(store[i := x], Whole) + store[i].messages
  {
    var store' := store[i := x];
    forall j | i < j < |store| ensures Whole(store[j]) == [] && Whole(store'[j]) == [] {
      assert !Live(store[j]);
    }
    GatherUpTo(store, i, Whole);
    GatherUpTo(store', i, Whole);
    assert store'[..i] == store[..i];
    assert Whole(x) == [];
    assert Gather(store[..i], Whole) + [] == Gather(store[..i], Whole);
  }

  lemma {:induction false} AbortKeepsApplied(store: seq<Submission>, i: nat, x: Submission)
    requires i < |store| && IsWaiting(store[i]) && !Live(x)
    ensures Gather(store[i := x], AppliedPart) == Gather(store, AppliedPart)
  {
    assert AppliedPart(store[i]) == [];
    GatherSame(store, store[i := x], AppliedPart);
  }

  lemma {:induction false} AbortKeepsSequential(store: seq<Submission>, i: nat, x: Submission)
    requires Sequential(store) && i < |store| && IsWaiting(store[i]) && !Live(x)
    ensures Sequential(store[i := x]) && NoneWaiting(store[i := x])
  {
  }

  lemma {:induction false} UnrelatedFreeSame(a: seq<Submission>, b: seq<Submission>, ids: set<string>)
    requires |a| == |b| && UnrelatedFree(a, ids)
    requires forall j :: 0 <= j < |a| ==> b[j].metadata == a[j].metadata && b[j].messages == a[j].messages
    ensures UnrelatedFree(b, ids)
  {
  }

  /** The state after a submit took the waiting batch back to send it with one message more. */
  function Merged(s: State, i: nat, r: Rebuilt): State
    requires s.rpc.SubmitFound?
  {
    s.(store := CancelSubmission(s.store, i), rpc := SubmitSending(s.rpc.n, r))
  }

  lemma {:induction false} MergeKeepsInv(s: State)
    requires Inv(s) && s.rpc.SubmitFound? && s.rpc.waiting.Some?
    requires IsWaiting(s.store[s.rpc.waiting.value.submissionId])
    ensures Inv(Merged(s, s.rpc.waiting.value.submissionId, AppendToBatch(s.rpc.waiting, s.rpc.n, s.rpc.feedback)))
  {
    hide LedgerOk, TranscriptOk, AppendToBatch, RebuiltOk, Gather;
    var n, w, i := s.rpc.n, s.rpc.waiting, s.rpc.waiting.value.submissionId;
    var r := AppendToBatch(w, n, s.rpc.feedback);
    assert RowOk(s.store[i]);
    MergedBatch(s.store[i], w.value, n, s.rpc.feedback);
    DropKeepsStore(s.store, i);
    MergeKeepsTranscript(s, i, r);
    MergeKeepsLedger(s, i, r);
    MergeKeepsRpc(s, i, r);
  }

  lemma {:induction false} MergedBatch(sub: Submission, w: Waiting, n: Normalized, feedback: Option<string>)
    requires sub.metadata.Batch? && RowOk(sub)
    requires w.items == sub.metadata.items && w.messages == sub.messages && n.item.clientMessageId == n.message.id
    ensures RebuiltOk(AppendToBatch(Some(w), n, feedback))
    ensures AppendToBatch(Some(w), n, feedback).messages == sub.messages + [n.message]
  {
    AppendAligned(Some(w), n, feedback);
  }

  lemma {:induction false} MergeKeepsTranscript(s: State, i: nat, r: Rebuilt)
    requires TranscriptOk(s) && RowsOk(s.store) && Sequential(s.store) && i < |s.store| && IsWaiting(s.store[i])
    requires s.rpc.SubmitFound?
    ensures TranscriptOk(Merged(s, i, r))
  {
    DropKeepsStore(s.store, i);
    assert ReservedIds(Merged(s, i, r)) == ReservedIds(s);
  }

  lemma {:induction false} MergeKeepsLedger(s: State, i: nat, r: Rebuilt)
    requires LedgerOk(s) && RowsOk(s.store) && Sequential(s.store) && i < |s.store| && IsWaiting(s.store[i])
    requires s.rpc.SubmitFound? && r.messages == s.store[i].messages + [s.rpc.n.message]
    ensures LedgerOk(Merged(s, i, r))
  {
    assert RowOk(s.store[i]);
    AbortWaiting(s.store, i);
    AllButLast(s.store[i].messages, s.rpc.n.message, r.messages);
    NothingHeld(Gather(s.store, Whole));
  }

  lemma {:induction false} AllButLast(front: seq<Message>, last: Message, whole: seq<Message>)
    requires whole == front + [last]
    ensures whole != [] && whole[..|whole| - 1] == front
  {
  }

  lemma {:induction false} MergeKeepsRpc(s: State, i: nat, r: Rebuilt)
    requires RowsOk(s.store) && Sequential(s.store) && i < |s.store| && IsWaiting(s.store[i])
    requires s.rpc.SubmitFound? && RebuiltOk(r) && r.messages == s.store[i].messages + [s.rpc.n.message]
    ensures RpcOk(Merged(s, i, r))
  {
    DropKeepsStore(s.store, i);
  }

  lemma {:induction false} AppendAligned(w: Option<Waiting>, n: Normalized, feedback: Option<string>)
    requires n.item.clientMessageId == n.message.id
    requires w.Some? ==> Aligned(w.value.items, w.value.messages)
    ensures RebuiltOk(AppendToBatch(w, n, feedback))
  {
  }

  lemma {:induction false} StartBatchKeepsInv(s: State)
    requires Inv(s) && s.rpc.SubmitFound? && NoneWaiting(s.store)
    ensures Inv(s.(rpc := SubmitSending(s.rpc.n, AppendToBatch(None, s.rpc.n, s.rpc.feedback))))
  {
    var n := s.rpc.n;
    var t := s.(rpc := SubmitSending(n, AppendToBatch(None, n, s.rpc.feedback)));
    AppendAligned(None, n, s.rpc.feedback);
    assert Held(t.rpc) == [];
    assert ReservedIds(t) == ReservedIds(s);
  }

  lemma {:induction false} DecideSubmitKeepsInv(s: State, now: int)
    requires Inv(s) && s.rpc.SubmitFound?
    ensures Inv(Resume(s, now))
  {
    var waiting := s.rpc.waiting;
    if waiting.Some? {
      AppliedCheckExact(s, waiting.value.submissionId);
    }
    if waiting.Some? && !IsApplied(waiting.value.items, AppliedIds(s)) {
      MergeKeepsInv(s);
    } else {
      StartBatchKeepsInv(s);
    }
  }

  function SentRow(r: Rebuilt, now: int): Submission {
    SubmissionRow(Pending, Some(now), r.metadata, r.messages, 0)
  }

  /** Sending a rebuilt batch when nothing is waiting makes it the only waiting one. */
  lemma {:induction false} SendKeepsStore(store: seq<Submission>, r: Rebuilt, now: int)
    requires RebuiltOk(r) && NoneWaiting(store) && Sequential(store)
    ensures var store' := SubmitMessages(store, r, now);
            && Gather(store', Whole) == Gather(store, Whole) + r.messages
            && Gather(store', AppliedPart) == Gather(store, AppliedPart)
            && Sequential(store')
  {
    var x := SentRow(r, now);
    assert SubmitMessages(store, r, now) == store + [x];
    assert Whole(x) == r.messages && AppliedPart(x) == [];
    GatherAppend(store, x, Whole);
    GatherAppendNothing(store, x, AppliedPart);
    SendKeepsSequential(store, x);
  }

  lemma {:induction false} SendKeepsSequential(store: seq<Submission>, x: Submission)
    requires Sequential(store) && NoneWaiting(store) && x.applied == 0
    ensures Sequential(store + [x])
  {
    var store' := store + [x];
    forall i, j | 0 <= i < j < |store'| && Live(store'[i]) && Live(store'[j])
      ensures store'[i].applied > 0
      ensures store'[j].applied > 0 ==> store'[i].applied == |store'[i].messages|
    {
      assert !IsWaiting(store[i]);
    }
  }

  lemma {:induction false} SurvivingFresh(submitted: seq<Message>, cancelled: set<string>, m: Message)
    requires cancelled <= IdsOf(submitted) && m.id !in IdsOf(submitted)
    ensures Surviving(submitted + [m], cancelled) == Surviving(submitted, cancelled) + [m]
  {
    assert (submitted + [m])[..|submitted|] == submitted;
  }

  lemma {:induction false} IdsOfAppend(messages: seq<Message>, m: Message)
    ensures IdsOf(messages + [m]) == IdsOf(messages) + {m.id}
  {
    assert forall x :: x in messages + [m] <==> x in messages || x == m;
  }

  lemma {:induction false} DistinctAppend(messages: seq<Message>, m: Message)
    requires DistinctIds(messages) && m.id !in IdsOf(messages)
    ensures DistinctIds(messages + [m])
  {
    forall p | 0 <= p < |messages| ensures messages[p].id != m.id {
      assert messages[p] in messages;
    }
  }

  /** The state after a submit sent its batch. */
  function Sent(s: State, now: int): State
    requires s.rpc.SubmitSending?
  {
    State(SubmitMessages(s.store, s.rpc.rebuilt, now), s.transcript, Idle, s.submitted + [s.rpc.n.message], s.cancelled)
  }

  lemma {:induction false} SendSubmitKeepsInv(s: State, now: int)
    requires Inv(s) && s.rpc.SubmitSending?
    ensures Inv(Resume(s, now))
  {
    assert Resume(s, now) == Sent(s, now);
    SendKeepsStore(s.store, s.rpc.rebuilt, now);
    SentRowOk(s.store, s.rpc.rebuilt, now);
    SendSubmitTranscript(s, now);
    SendSubmitLedger(s, now);
  }

  lemma {:induction false} IdleTranscript(t: State)
    requires t.rpc.Idle? && FromQueue(t.transcript) == Gather(t.store, AppliedPart)
    requires OthersFree(t.transcript, IdsOf(t.submitted)) && UnrelatedFree(t.store, IdsOf(t.submitted))
    ensures TranscriptOk(t)
  {
    assert ReservedIds(t) == IdsOf(t.submitted);
  }

  lemma {:induction false} IdleLedger(t: State)
    requires t.rpc.Idle? && Gather(t.store, Whole) == Surviving(t.submitted, t.cancelled)
    requires DistinctIds(t.submitted) && t.cancelled <= IdsOf(t.submitted)
    ensures LedgerOk(t)
  {
    NothingHeld(Gather(t.store, Whole));
  }

  lemma {:induction false} SentRowOk(store: seq<Submission>, r: Rebuilt, now: int)
    requires RowsOk(store) && RebuiltOk(r)
    ensures RowsOk(SubmitMessages(store, r, now))
  {
    AppendKeepsRows(store, SentRow(r, now));
  }

  lemma {:induction false} SentUnrelatedFree(store: seq<Submission>, r: Rebuilt, now: int, ids: set<string>)
    requires UnrelatedFree(store, ids) && r.metadata.Batch?
    ensures UnrelatedFree(SubmitMessages(store, r, now), ids)
  {
  }

  lemma {:induction false} SentTranscript(transcript: seq<Entry>, store: seq<Submission>, r: Rebuilt, now: int,
        ids: set<string>)
    requires FromQueue(transcript) == Gather(store, AppliedPart) && UnrelatedFree(store, ids)
    requires Sequential(store) && NoneWaiting(store) && RebuiltOk(r)
    ensures FromQueue(transcript) == Gather(SubmitMessages(store, r, now), AppliedPart)
    ensures UnrelatedFree(SubmitMessages(store, r, now), ids)
  {
    SendKeepsStore(store, r, now);
    SentUnrelatedFree(store, r, now, ids);
  }

  lemma {:induction false} SendingOk(s: State)
    requires RpcOk(s)
    ensures s.rpc.SubmitSending? || s.rpc.CancelSending? ==> RebuiltOk(s.rpc.rebuilt) && NoneWaiting(s.store)
  {
  }

  lemma {:induction false} SendSubmitTranscript(s: State, now: int)
    requires TranscriptOk(s) && Sequential(s.store) && RpcOk(s) && s.rpc.SubmitSending?
    ensures TranscriptOk(Sent(s, now))
  {
    var m := s.rpc.n.message;
    SendingOk(s);
    IdsOfAppend(s.submitted, m);
    assert ReservedIds(s) == IdsOf(s.submitted + [m]);
    SentTranscript(s.transcript, s.store, s.rpc.rebuilt, now, ReservedIds(s));
    IdleTranscript(Sent(s, now));
  }

  /** Appending a fresh message to what is held adds it to what survives. */
  lemma {:induction false} HeldAndSent(whole: seq<Message>, held: seq<Message>, submitted: seq<Message>,
                                       cancelled: set<string>, m: Message, messages: seq<Message>)
    requires whole + held == Surviving(submitted, cancelled) && messages == held + [m]
    requires cancelled <= IdsOf(submitted) && m.id !in IdsOf(submitted)
    ensures whole + messages == Surviving(submitted + [m], cancelled)
  {
    SurvivingFresh(submitted, cancelled, m);
    Regroup(whole, held, [m]);
  }

  lemma {:induction false} LastHeld(s: State)
    requires RpcOk(s) && s.rpc.SubmitSending?
    ensures s.rpc.rebuilt.messages == Held(s.rpc) + [s.rpc.n.message]
  {
  }

  lemma {:induction false} SendSubmitLedger(s: State, now: int)
    requires LedgerOk(s) && RpcOk(s) && s.rpc.SubmitSending? && Sequential(s.store)
    ensures LedgerOk(Sent(s, now))
  {
    var r, m := s.rpc.rebuilt, s.rpc.n.message;
    SendKeepsStore(s.store, r, now);
    LastHeld(s);
    HeldAndSent(Gather(s.store, Whole), Held(s.rpc), s.submitted, s.cancelled, m, r.messages);
    IdsOfAppend(s.submitted, m);
    DistinctAppend(s.submitted, m);
    IdleLedger(Sent(s, now));
  }

  lemma {:induction false} NothingHeld(messages: seq<Message>)
    ensures messages + [] == messages
  {
  }

  /** The state after a cancel sent the rest of the batch. */
  function SentRest(s: State, now: int): State
    requires s.rpc.CancelSending?
  {
    State(SubmitMessages(s.store, s.rpc.rebuilt, now), s.transcript, Idle, s.submitted, s.cancelled)
  }

  lemma {:induction false} SendCancelKeepsInv(s: State, now: int)
    requires Inv(s) && s.rpc.CancelSending?
    ensures Inv(Resume(s, now))
  {
    assert Resume(s, now) == SentRest(s, now);
    SendKeepsStore(s.store, s.rpc.rebuilt, now);
    SentRowOk(s.store, s.rpc.rebuilt, now);
    SendCancelTranscript(s, now);
    SendCancelLedger(s, now);
  }

  lemma {:induction false} SendCancelTranscript(s: State, now: int)
    requires TranscriptOk(s) && Sequential(s.store) && RpcOk(s) && s.rpc.CancelSending?
    ensures TranscriptOk(SentRest(s, now))
  {
    SendingOk(s);
    assert ReservedIds(s) == IdsOf(s.submitted);
    SentTranscript(s.transcript, s.store, s.rpc.rebuilt, now, IdsOf(s.submitted));
    IdleTranscript(SentRest(s, now));
  }

  lemma {:induction false} SendCancelLedger(s: State, now: int)
    requires LedgerOk(s) && RpcOk(s) && s.rpc.CancelSending? && Sequential(s.store)
    ensures LedgerOk(SentRest(s, now))
  {
    SendKeepsStore(s.store, s.rpc.rebuilt, now);
    IdleLedger(SentRest(s, now));
  }

  /** A cancel that goes through removes exactly one message, and only from the waiting batch. */
  lemma {:induction false} DecideCancelKeepsInv(s: State, now: int)
    requires Inv(s) && s.rpc.CancelInspected?
    ensures Inv(Resume(s, now))
  {
    var i, id := s.rpc.submissionId, s.rpc.clientMessageId;
    if DecideCancel(s, i, id, s.rpc.current) != s.(rpc := Idle) {
      var sub := s.store[i];
      assert RowOk(sub) && SameSubmission(s.rpc.current.value, sub);
      var k := FindItem(sub.metadata.items, id);
      assert k < |sub.messages| && sub.messages[k].id == id;
      AppliedCheckExact(s, i);
      assert IsWaiting(sub);
      DropOneKeepsInv(s, k, RemoveFromBatch(sub.metadata.items, sub.messages, id));
    }
  }

  /** The state after a cancel took message `k` out of waiting batch `i`. */
  function Dropped(s: State, i: nat, id: string, remaining: Option<Rebuilt>): State {
    s.(store := CancelSubmission(s.store, i), cancelled := s.cancelled + {id},
       rpc := if remaining.Some? then CancelSending(remaining.value) else Idle)
  }

  lemma {:induction false} DropOneKeepsInv(s: State, k: nat, remaining: Option<Rebuilt>)
    requires Inv(s) && s.rpc.CancelInspected? && s.rpc.submissionId < |s.store|
    requires IsWaiting(s.store[s.rpc.submissionId]) && k < |s.store[s.rpc.submissionId].messages|
    requires k == FindItem(s.store[s.rpc.submissionId].metadata.items, s.rpc.clientMessageId)
    requires remaining == RemoveFromBatch(s.store[s.rpc.submissionId].metadata.items,
                                          s.store[s.rpc.submissionId].messages, s.rpc.clientMessageId)
    ensures Inv(Dropped(s, s.rpc.submissionId, s.rpc.clientMessageId, remaining))
  {
    var i, id := s.rpc.submissionId, s.rpc.clientMessageId;
    assert RowOk(s.store[i]);
    DropKeepsStore(s.store, i);
    DropKeepsTranscript(s, i, id, remaining);
    RebuiltRest(s.store[i], id, k, remaining);
    DropKeepsLedger(s, i, k, remaining);
  }

  lemma {:induction false} DropKeepsStore(store: seq<Submission>, i: nat)
    requires RowsOk(store) && Sequential(store) && i < |store| && IsWaiting(store[i])
    ensures RowsOk(CancelSubmission(store, i)) && Sequential(CancelSubmission(store, i))
            && NoneWaiting(CancelSubmission(store, i))
    ensures Gather(CancelSubmission(store, i), AppliedPart) == Gather(store, AppliedPart)
    ensures forall ids :: UnrelatedFree(store, ids) ==> UnrelatedFree(CancelSubmission(store, i), ids)
  {
    assert RowOk(store[i]);
    AbortWaiting(store, i);
    UpdateKeepsRows(store, i, store[i].(status := Aborted));
    forall ids | UnrelatedFree(store, ids) ensures UnrelatedFree(CancelSubmission(store, i), ids) {
      UnrelatedFreeSame(store, CancelSubmission(store, i), ids);
    }
  }

  lemma {:induction false} DropKeepsTranscript(s: State, i: nat, id: string, remaining: Option<Rebuilt>)
    requires TranscriptOk(s) && RowsOk(s.store) && Sequential(s.store) && i < |s.store| && IsWaiting(s.store[i])
    requires s.rpc.CancelInspected?
    ensures TranscriptOk(Dropped(s, i, id, remaining))
  {
    DropKeepsStore(s.store, i);
    assert ReservedIds(Dropped(s, i, id, remaining)) == ReservedIds(s);
  }

  /** What is sent again is the batch without the message, or nothing when it was the only one. */
  lemma {:induction false} RebuiltRest(sub: Submission, id: string, k: nat, remaining: Option<Rebuilt>)
    requires RowOk(sub) && sub.metadata.Batch? && k == FindItem(sub.metadata.items, id) && k < |sub.messages|
    requires remaining == RemoveFromBatch(sub.metadata.items, sub.messages, id)
    ensures sub.messages[k].id == id
    ensures remaining.Some? ==> RebuiltOk(remaining.value) && remaining.value.messages == RemoveAt(sub.messages, k)
    ensures remaining.None? ==> RemoveAt(sub.messages, k) == []
  {
    RemoveAligned(sub.metadata.items, sub.messages, k);
  }

  lemma {:induction false} DropKeepsLedger(s: State, i: nat, k: nat, remaining: Option<Rebuilt>)
    requires Inv(s) && s.rpc.CancelInspected? && i < |s.store| && IsWaiting(s.store[i]) && k < |s.store[i].messages|
    requires remaining.Some? ==> remaining.value.messages == RemoveAt(s.store[i].messages, k)
    requires remaining.None? ==> RemoveAt(s.store[i].messages, k) == []
    ensures LedgerOk(Dropped(s, i, s.store[i].messages[k].id, remaining))
  {
    hide Gather, Surviving, CancelSubmission, IsWaiting, IdsOf, DistinctIds, RowsOk, TranscriptOk, Sequential;
    CancelledLedger(s, i, k);
  }

  lemma {:induction false} RemoveAligned(items: seq<Item>, messages: seq<Message>, k: nat)
    requires Aligned(items, messages) && k < |items|
    ensures |items| == 1 ==> RemoveAt(messages, k) == []
    ensures |items| > 1 ==> Aligned(RemoveAt(items, k), RemoveAt(messages, k))
  {
  }

  lemma {:induction false} CancelledLedger(s: State, i: nat, k: nat)
    requires Inv(s) && Held(s.rpc) == [] && i < |s.store| && IsWaiting(s.store[i]) && k < |s.store[i].messages|
    ensures var id := s.store[i].messages[k].id;
            && id in IdsOf(s.submitted)
            && Gather(CancelSubmission(s.store, i), Whole) + RemoveAt(s.store[i].messages, k)
               == Surviving(s.submitted, s.cancelled + {id})
  {
    assert RowOk(s.store[i]);
    AbortWaiting(s.store, i);
    RemoveOneSurvivor(s.submitted, s.cancelled, Gather(CancelSubmission(s.store, i), Whole), s.store[i].messages, k);
  }

  lemma {:induction false} RemoveOneSurvivor(submitted: seq<Message>, cancelled: set<string>, kept: seq<Message>,
        batch: seq<Message>, k: nat)
    requires DistinctIds(submitted) && k < |batch|
    requires Surviving(submitted, cancelled) == kept + batch
    ensures batch[k].id in IdsOf(submitted)
    ensures kept + RemoveAt(batch, k) == Surviving(submitted, cancelled + {batch[k].id})
  {
    var all := kept + batch;
    assert all[|kept| + k] == batch[k];
    SurvivingMember(submitted, cancelled, batch[k]);
    SurvivingDistinct(submitted, cancelled);
    SurvivingTwice(submitted, cancelled, {batch[k].id});
    RemoveIsSurviving(all, |kept| + k);
    RemoveFromConcat(kept, batch, k);
  }

  lemma {:induction false} RemoveFromConcat<T>(a: seq<T>, b: seq<T>, k: nat)
    requires k < |b|
    ensures RemoveAt(a + b, |a| + k) == a + RemoveAt(b, k)
  {
    assert (a + b)[..|a| + k] == a + b[..k];
    assert (a + b)[|a| + k + 1..] == b[k + 1..];
  }

  lemma {:induction false} InspectKeepsInv(s: State, now: int)
    requires Inv(s) && s.rpc.CancelInspecting?
    ensures Inv(Resume(s, now))
  {
    hide TranscriptOk, LedgerOk, Sequential;
    InspectTranscript(s, Inspected(s));
    InspectLedger(s, Inspected(s));
  }

  /** The state of a cancel that has read its submission. */
  function Inspected(s: State): State
    requires s.rpc.CancelInspecting?
  {
    var id := s.rpc.submissionId;
    s.(rpc := CancelInspected(id, s.rpc.clientMessageId, if id < |s.store| then Some(s.store[id]) else None))
  }

  lemma {:induction false} InspectTranscript(s: State, t: State)
    requires TranscriptOk(s) && s.rpc.CancelInspecting? && t == Inspected(s)
    ensures TranscriptOk(t)
  {
    assert ReservedIds(t) == ReservedIds(s);
  }

  lemma {:induction false} InspectLedger(s: State, t: State)
    requires LedgerOk(s) && s.rpc.CancelInspecting? && t == Inspected(s)
    ensures LedgerOk(t)
  {
  }

  lemma {:induction false} ResumeKeepsInv(s: State, now: int)
    requires Inv(s)
    ensures Inv(Resume(s, now))
  {
    hide Inv;
    match s.rpc
    case Idle =>
    case SubmitListing(_, _) => ListedKeepsInv(s, now);
    case SubmitListed(_, _, _) => FoundKeepsInv(s, now);
    case SubmitFound(_, _, _) => DecideSubmitKeepsInv(s, now);
    case SubmitSending(_, _) => SendSubmitKeepsInv(s, now);
    case CancelInspecting(_, _) => InspectKeepsInv(s, now);
    case CancelInspected(_, _, _) => DecideCancelKeepsInv(s, now);
    case CancelSending(_) => SendCancelKeepsInv(s, now);
  }

  lemma {:induction false} BeginSubmitKeepsInv(s: State, n: Normalized, feedback: Option<string>)
    requires Inv(s)
    ensures Inv(Next(s, BeginSubmit(n, feedback)))
  {
    hide TranscriptOk, LedgerOk, RowsOk, Sequential, FreshId;
    if s.rpc.Idle? && n.item.clientMessageId == n.message.id && FreshId(s, n.message.id) {
      BeginTranscript(s, n, feedback);
      BeginLedger(s, n, feedback);
    }
  }

  /** The state of a submit that has just begun. */
  function Begun(s: State, n: Normalized, feedback: Option<string>): State {
    s.(rpc := SubmitListing(n, feedback))
  }

  lemma {:induction false} BeginTranscript(s: State, n: Normalized, feedback: Option<string>)
    requires TranscriptOk(s) && s.rpc.Idle? && FreshId(s, n.message.id)
    ensures TranscriptOk(Begun(s, n, feedback))
  {
    assert ReservedIds(Begun(s, n, feedback)) == IdsOf(s.submitted) + {n.message.id};
  }

  lemma {:induction false} BeginLedger(s: State, n: Normalized, feedback: Option<string>)
    requires LedgerOk(s) && s.rpc.Idle? && FreshId(s, n.message.id)
    ensures LedgerOk(Begun(s, n, feedback))
  {
  }

  /** Calls that stand for no message of their own. */
  lemma {:induction false} BareCall(s: State, t: State)
    requires s.rpc.Idle? && t.rpc.CancelInspecting? && t.submitted == s.submitted
    ensures ReservedIds(t) == ReservedIds(s) && Held(t.rpc) == Held(s.rpc)
  {
  }

  lemma {:induction false} BeginCancelKeepsInv(s: State, id: nat, clientMessageId: string)
    requires Inv(s)
    ensures Inv(Next(s, BeginCancel(id, clientMessageId)))
  {
    if s.rpc.Idle? {
      BareCall(s, s.(rpc := CancelInspecting(id, clientMessageId)));
    }
  }

  lemma {:induction false} NextKeepsInv(s: State, event: Event)
    requires Inv(s)
    ensures Inv(Next(s, event))
  {
    match event
    case Env(step) => EnvKeepsInv(s, step);
    case BeginSubmit(n, feedback) => BeginSubmitKeepsInv(s, n, feedback);
    case BeginCancel(id, clientMessageId) => BeginCancelKeepsInv(s, id, clientMessageId);
    case Advance(now) => ResumeKeepsInv(s, now);
  }

  lemma {:induction false} RunKeepsInv(events: seq<Event>)
    ensures Inv(Run(Initial, events))
  {
    if events == [] {
      InitialInv();
    } else {
      RunKeepsInv(events[..|events| - 1]);
      NextKeepsInv(Run(Initial, events[..|events| - 1]), events[|events| - 1]);
    }
  }

  // ---------- what callers are promised, over every run ----------

  /** Messages in the transcript, then those still to be applied, then those a suspended call
      holds, are exactly the submitted messages that were not cancelled, each once, in order. */
  lemma {:induction false} QueueConservesMessages(events: seq<Event>)
    ensures var s := Run(Initial, events);
            && FromQueue(s.transcript) + Gather(s.store, PendingPart) + Held(s.rpc)
               == Surviving(s.submitted, s.cancelled)
            && DistinctIds(Surviving(s.submitted, s.cancelled))
  {
    var s := Run(Initial, events);
    RunKeepsInv(events);
    GatherSplits(s.store);
    SurvivingDistinct(s.submitted, s.cancelled);
  }

  /** At most one batch waits, and every batch before it has started to be applied. */
  lemma {:induction false} AtMostOneWaitingBatch(events: seq<Event>, i: nat, j: nat)
    requires i < |Run(Initial, events).store| && j < |Run(Initial, events).store|
    requires IsWaiting(Run(Initial, events).store[i]) && Live(Run(Initial, events).store[j])
    ensures j <= i
    ensures IsWaiting(Run(Initial, events).store[j]) <==> i == j
  {
    RunKeepsInv(events);
  }

  /** No call ever aborts a batch once one of its messages is in the transcript. */
  lemma {:induction false} AppliedBatchNeverAborted(events: seq<Event>, event: Event, i: nat, m: Message)
    requires i < |Run(Initial, events).store|
    requires !Run(Initial, events).store[i].status.Aborted?
    requires m in Run(Initial, events).store[i].messages && m.id in AppliedIds(Run(Initial, events))
    ensures i < |Run(Initial, events + [event]).store|
    ensures !Run(Initial, events + [event]).store[i].status.Aborted?
  {
    RunKeepsInv(events);
    assert (events + [event])[..|events|] == events;
    StepSparesApplied(Run(Initial, events), event, i, m);
  }

  lemma {:induction false} StepSparesApplied(s: State, event: Event, i: nat, m: Message)
    requires Inv(s) && i < |s.store| && !s.store[i].status.Aborted?
    requires m in s.store[i].messages && m.id in AppliedIds(s)
    ensures i < |Next(s, event).store| && !Next(s, event).store[i].status.Aborted?
  {
    if event.Advance? && s.rpc.SubmitFound? {
      SubmitSparesApplied(s, i, m);
    } else if event.Advance? && s.rpc.CancelInspected? {
      CancelSparesApplied(s, i, m);
    } else {
      OthersAbortNothing(s, event, i);
    }
  }

  lemma {:induction false} OthersAbortNothing(s: State, event: Event, i: nat)
    requires i < |s.store| && !s.store[i].status.Aborted?
    requires !(event.Advance? && (s.rpc.SubmitFound? || s.rpc.CancelInspected?))
    ensures i < |Next(s, event).store| && !Next(s, event).store[i].status.Aborted?
  {
  }

  lemma {:induction false} SubmitSparesApplied(s: State, i: nat, m: Message)
    requires Inv(s) && i < |s.store| && !s.store[i].status.Aborted? && s.rpc.SubmitFound?
    requires m in s.store[i].messages && m.id in AppliedIds(s)
    ensures var t := DecideSubmit(s, s.rpc.n, s.rpc.feedback, s.rpc.waiting);
            i < |t.store| && !t.store[i].status.Aborted?
  {
    if s.rpc.waiting.Some? {
      AbortSparesApplied(s, s.rpc.waiting.value.submissionId);
    }
  }

  lemma {:induction false} CancelSparesApplied(s: State, i: nat, m: Message)
    requires Inv(s) && i < |s.store| && !s.store[i].status.Aborted? && s.rpc.CancelInspected?
    requires m in s.store[i].messages && m.id in AppliedIds(s)
    ensures var t := DecideCancel(s, s.rpc.submissionId, s.rpc.clientMessageId, s.rpc.current);
            i < |t.store| && !t.store[i].status.Aborted?
  {
    if s.rpc.submissionId < |s.store| {
      AbortSparesApplied(s, s.rpc.submissionId);
    }
  }

  lemma {:induction false} AbortSparesApplied(s: State, k: nat)
    requires Inv(s) && k < |s.store|
    ensures Live(s.store[k]) && !IsApplied(s.store[k].metadata.items, AppliedIds(s)) ==>
              forall m :: m in s.store[k].messages ==> m.id !in AppliedIds(s)
  {
    var sub := s.store[k];
    assert RowOk(sub);
    if Live(sub) && !IsApplied(sub.metadata.items, AppliedIds(s)) {
      forall m | m in sub.messages ensures m.id !in AppliedIds(s) {
        var p :| 0 <= p < |sub.messages| && sub.messages[p] == m;
        assert sub.metadata.items[p].clientMessageId == m.id;
      }
    }
  }

  /** A message whose cancel went through never shows up in the conversation. */
  lemma {:induction false} CancelledNeverApplied(events: seq<Event>)
    ensures Run(Initial, events).cancelled !! AppliedIds(Run(Initial, events))
  {
    var s := Run(Initial, events);
    RunKeepsInv(events);
    QueueConservesMessages(events);
    forall e | e in s.transcript ensures e.message.id !in s.cancelled {
      if e.fromQueue {
        FromQueueMember(s.transcript, e);
        SurvivingMember(s.submitted, s.cancelled, e.message);
        assert e.message in FromQueue(s.transcript) + Gather(s.store, PendingPart) + Held(s.rpc);
      }
    }
  }

  /** A cancel takes effect exactly when its target is, at that moment, the waiting batch and
      still carries the message. */
  lemma {:induction false} CancelTakesEffectExactly(events: seq<Event>, now: int)
    requires Run(Initial, events).rpc.CancelInspected? && Run(Initial, events).rpc.current.Some?
    ensures Run(Initial, events).rpc.submissionId < |Run(Initial, events).store|
    ensures var s := Run(Initial, events);
            var sub := s.store[s.rpc.submissionId];
            DecideCancel(s, s.rpc.submissionId, s.rpc.clientMessageId, s.rpc.current) != s.(rpc := Idle)
            <==> IsWaiting(sub) && s.rpc.clientMessageId in IdsOf(sub.messages)
  {
    RunKeepsInv(events);
    CancelDecision(Run(Initial, events));
  }

  lemma {:induction false} CancelDecision(s: State)
    requires Inv(s) && s.rpc.CancelInspected? && s.rpc.current.Some?
    ensures DecideCancel(s, s.rpc.submissionId, s.rpc.clientMessageId, s.rpc.current) != s.(rpc := Idle)
            <==>
              && IsWaiting(s.store[s.rpc.submissionId])
              && s.rpc.clientMessageId in IdsOf(s.store[s.rpc.submissionId].messages)
  {
    var i, id, current := s.rpc.submissionId, s.rpc.clientMessageId, s.rpc.current.value;
    var sub := s.store[i];
    assert RowOk(sub) && SameSubmission(current, sub);
    if Live(sub) {
      AppliedCheckExact(s, i);
      ItemFoundExactly(sub.metadata.items, sub.messages, id);
    }
    if IsWaiting(sub) && id in IdsOf(sub.messages) {
      assert CancelSubmission(s.store, i)[i].status.Aborted?;
    }
  }

  lemma {:induction false} ItemFoundExactly(items: seq<Item>, messages: seq<Message>, id: string)
    requires Aligned(items, messages)
    ensures FindItem(items, id) < |items| <==> id in IdsOf(messages)
  {
    var k := FindItem(items, id);
    if k < |items| {
      assert messages[k] in messages;
    }
    forall p | 0 <= p < |messages| && messages[p].id == id ensures k < |items| {
      assert items[p].clientMessageId == id;
    }
  }
}
