/**
 Submit and cancel calls on the message queue interleaved with the drain loop.

 One queue call runs at a time (`serializeQueuedRpc`); at each of its awaits the runtime may claim
 a submission, append one of its messages to the transcript, finish it, or accept unrelated
 messages. `submitted` and `cancelled` only record what the callers asked for.
 */
module QueueProtocol {
  import opened Wrappers
  import opened QueuedMessages

  datatype Entry = Entry(message: Message, fromQueue: bool)

  /** Where the single running queue call is suspended, with its local variables. */
  datatype Rpc =
    | Idle
    | SubmitListing(n: Normalized, feedback: Option<string>)
    | SubmitListed(n: Normalized, feedback: Option<string>, snapshot: seq<Submission>)
    | SubmitFound(n: Normalized, feedback: Option<string>, waiting: Option<Waiting>)
    | SubmitSending(n: Normalized, rebuilt: Rebuilt)
    | CancelInspecting(submissionId: nat, clientMessageId: string)
    | CancelInspected(submissionId: nat, clientMessageId: string, current: Option<Submission>)
    | CancelSending(rebuilt: Rebuilt)

  datatype State = State(
    store: seq<Submission>,
    transcript: seq<Entry>,
    rpc: Rpc,
    submitted: seq<Message>,
    cancelled: set<string>)

  datatype EnvStep =
    | Claim(i: nat)
    | ApplyNext(i: nat)
    | Finish(i: nat)
    | SubmitUnrelated(messages: seq<Message>, createdAt: int)
    | AppendUnrelated(message: Message)

  datatype Event =
    | Env(step: EnvStep)
    | BeginSubmit(n: Normalized, feedback: Option<string>)
    | BeginCancel(submissionId: nat, clientMessageId: string)
    | Advance(now: int)

  const Initial := State([], [], Idle, [], {})

  function IdsOf(messages: seq<Message>): set<string> {
    set m | m in messages :: m.id
  }

  function AppliedIds(s: State): set<string> {
    set e | e in s.transcript :: e.message.id
  }

  /** Ids a queue call has used or is about to use. */
  function ReservedIds(s: State): set<string> {
    IdsOf(s.submitted) +
    (match s.rpc
     case SubmitListing(n, _) => {n.message.id}
     case SubmitListed(n, _, _) => {n.message.id}
     case SubmitFound(n, _, _) => {n.message.id}
     case SubmitSending(n, _) => {n.message.id}
     case _ => {})
  }

  predicate UnrelatedFree(store: seq<Submission>, ids: set<string>) {
    forall i :: 0 <= i < |store| && !store[i].metadata.Batch? ==> IdsOf(store[i].messages) !! ids
  }

  predicate FreshId(s: State, id: string) {
    id !in IdsOf(s.submitted) && id !in AppliedIds(s) && UnrelatedFree(s.store, {id})
  }

  predicate IsPartial(s: Submission) {
    0 < s.applied < |s.messages|
  }

  /** The drain loop applies one submission's whole message array before touching another. */
  predicate MayApply(store: seq<Submission>, i: nat) {
    && i < |store|
    && store[i].status.Running?
    && store[i].applied < |store[i].messages|
    && forall j :: 0 <= j < |store| && j != i ==> !IsPartial(store[j])
  }

  function EnvNext(s: State, step: EnvStep): State {
    match step
    case Claim(i) =>
      if i < |s.store| && s.store[i].status.Pending?
      then s.(store := s.store[i := s.store[i].(status := Running)]) else s
    case ApplyNext(i) =>
      if MayApply(s.store, i) then
        var sub := s.store[i];
        s.(store := s.store[i := sub.(applied := sub.applied + 1)],
           transcript := s.transcript + [Entry(sub.messages[sub.applied], sub.metadata.Batch?)])
      else s
    case Finish(i) =>
      if i < |s.store| && s.store[i].status.Running? && s.store[i].applied == |s.store[i].messages|
      then s.(store := s.store[i := s.store[i].(status := Completed)]) else s
    case SubmitUnrelated(messages, createdAt) =>
      if IdsOf(messages) !! ReservedIds(s)
      then s.(store := s.store + [SubmissionRow(Pending, Some(createdAt), Unrelated, messages, 0)]) else s
    case AppendUnrelated(m) =>
      if m.id !in ReservedIds(s) then s.(transcript := s.transcript + [Entry(m, false)]) else s
  }

  /** The runtime's cancel: only a pending or running submission is aborted. */
  function CancelSubmission(store: seq<Submission>, i: nat): seq<Submission> {
    if i < |store| && (store[i].status.Pending? || store[i].status.Running?)
    then store[i := store[i].(status := Aborted)] else store
  }

  function SubmitMessages(store: seq<Submission>, rebuilt: Rebuilt, now: int): seq<Submission> {
    store + [SubmissionRow(Pending, Some(now), rebuilt.metadata, rebuilt.messages, 0)]
  }

  /** What a resumed submit call does: re-check, cancel with no await in between, rebuild. */
  function DecideSubmit(s: State, n: Normalized, feedback: Option<string>, waiting: Option<Waiting>): State {
    if waiting.Some? && !IsApplied(waiting.value.items, AppliedIds(s)) then
      s.(store := CancelSubmission(s.store, waiting.value.submissionId),
         rpc := SubmitSending(n, AppendToBatch(waiting, n, feedback)))
    else
      s.(rpc := SubmitSending(n, AppendToBatch(None, n, feedback)))
  }

  function DecideCancel(s: State, submissionId: nat, clientMessageId: string, current: Option<Submission>): State {
    if current.None? then s.(rpc := Idle)
    else
      var batch := ParseBatch(current.value.metadata);
      if batch.None? || FindItem(batch.value.items, clientMessageId) == |batch.value.items| then s.(rpc := Idle)
      else if !CanCancel(current.value.status, batch.value.items, AppliedIds(s)) then s.(rpc := Idle)
      else
        var remaining := if batch.value.messages.None? then None
                         else RemoveFromBatch(batch.value.items, batch.value.messages.value, clientMessageId);
        s.(store := CancelSubmission(s.store, submissionId),
           cancelled := s.cancelled + {clientMessageId},
           rpc := if remaining.Some? then CancelSending(remaining.value) else Idle)
  }

  /** Run the suspended call up to its next await. */
  function Resume(s: State, now: int): State {
    match s.rpc
    case Idle => s
    case SubmitListing(n, feedback) => s.(rpc := SubmitListed(n, feedback, s.store))
    case SubmitListed(n, feedback, snapshot) =>
      s.(rpc := SubmitFound(n, feedback, LatestWaiting(snapshot, AppliedIds(s))))
    case SubmitFound(n, feedback, waiting) => DecideSubmit(s, n, feedback, waiting)
    case SubmitSending(n, rebuilt) =>
      s.(store := SubmitMessages(s.store, rebuilt, now), submitted := s.submitted + [n.message], rpc := Idle)
    case CancelInspecting(id, clientMessageId) =>
      s.(rpc := CancelInspected(id, clientMessageId, if id < |s.store| then Some(s.store[id]) else None))
    case CancelInspected(id, clientMessageId, current) => DecideCancel(s, id, clientMessageId, current)
    case CancelSending(rebuilt) => s.(store := SubmitMessages(s.store, rebuilt, now), rpc := Idle)
  }

  function Next(s: State, event: Event): State {
    match event
    case Env(step) => EnvNext(s, step)
    case BeginSubmit(n, feedback) =>
      if s.rpc.Idle? && n.item.clientMessageId == n.message.id && FreshId(s, n.message.id)
      then s.(rpc := SubmitListing(n, feedback)) else s
    case BeginCancel(id, clientMessageId) =>
      if s.rpc.Idle? then s.(rpc := CancelInspecting(id, clientMessageId)) else s
    case Advance(now) => Resume(s, now)
  }

  function Run(s: State, events: seq<Event>): State {
    if events == [] then s
    else Next(Run(s, events[..|events| - 1]), events[|events| - 1])
  }

  /** A submit that has looked for a waiting batch ends with one new pending row, stored under its own time:
      it carries the feedback it came with, and the message behind those of the batch it took over, if that
      one has not begun to be applied. */
  lemma {:induction false} SubmitStores(s: State, first: int, second: int)
    requires s.rpc.SubmitFound?
    ensures var t := Resume(Resume(s, first), second);
            var taken := s.rpc.waiting.Some? && !IsApplied(s.rpc.waiting.value.items, AppliedIds(s));
            && t.rpc == Idle && t.transcript == s.transcript && t.submitted == s.submitted + [s.rpc.n.message]
            && |t.store| == |s.store| + 1
            && var row := t.store[|s.store|];
               && row.status == Pending && row.createdAt == Some(second) && row.applied == 0
               && row.metadata.Batch? && row.metadata.feedback == s.rpc.feedback
               && row.metadata.messages == Some(row.messages)
               && row.messages == (if taken then s.rpc.waiting.value.messages else []) + [s.rpc.n.message]
               && row.metadata.items == (if taken then s.rpc.waiting.value.items else []) + [s.rpc.n.item]
  {
  }

  /** A cancel that leaves messages over ends with one new pending row holding exactly those, in order, and
      without feedback. */
  lemma {:induction false} CancelStores(s: State, now: int, k: nat)
    requires s.rpc.CancelInspected? && s.rpc.current.Some?
    requires var m := s.rpc.current.value.metadata;
             && m.Batch? && m.messages.Some? && |m.messages.value| == |m.items| > 1 && k < |m.items|
             && m.items[k].clientMessageId == s.rpc.clientMessageId
             && (forall j :: 0 <= j < k ==> m.items[j].clientMessageId != s.rpc.clientMessageId)
    requires s.rpc.current.value.status.Pending? || s.rpc.current.value.status.Running?
    requires !IsApplied(s.rpc.current.value.metadata.items, AppliedIds(s))
    ensures var m, t := s.rpc.current.value.metadata, Resume(Resume(s, now), now);
            && t.rpc == Idle && t.transcript == s.transcript && t.submitted == s.submitted
            && t.cancelled == s.cancelled + {s.rpc.clientMessageId}
            && |t.store| == |s.store| + 1
            && var row := t.store[|s.store|];
               && row.status == Pending && row.createdAt == Some(now) && row.applied == 0
               && row.metadata.Batch? && row.metadata.feedback == None
               && row.metadata.messages == Some(row.messages)
               && row.messages == m.messages.value[..k] + m.messages.value[k + 1..]
               && row.metadata.items == m.items[..k] + m.items[k + 1..]
  {
    var m := s.rpc.current.value.metadata;
    assert FindItem(m.items, s.rpc.clientMessageId) == k;
    TakenOut(m, s.rpc.clientMessageId, k);
    hide IsApplied, AppliedIds, FindItem, RemoveFromBatch, ParseBatch, RemoveAt;
  }

  lemma {:induction false} TakenOut(m: Metadata, clientMessageId: string, k: nat)
    requires m.Batch? && m.messages.Some? && |m.messages.value| == |m.items| > 1 && k < |m.items|
    requires FindItem(m.items, clientMessageId) == k
    ensures ParseBatch(m).Some? && ParseBatch(m).value.items == m.items && ParseBatch(m).value.messages == m.messages
    ensures var kept, messages := m.items[..k] + m.items[k + 1..], m.messages.value[..k] + m.messages.value[k + 1..];
            RemoveFromBatch(m.items, m.messages.value, clientMessageId)
            == Some(Rebuilt(Batch(kept, Some(messages), None), messages))
  {
    hide FindItem;
  }

  // ---------- what a run is measured by ----------

  /** A queue submission whose messages were or will be applied. */
  predicate Live(s: Submission) {
    s.metadata.Batch? && (s.status.Pending? || s.status.Running? || s.status.Completed?)
  }

  /** A live batch none of whose messages has reached the transcript. */
  predicate IsWaiting(s: Submission) {
    Live(s) && s.applied == 0
  }

  function Whole(s: Submission): seq<Message> {
    if Live(s) then s.messages else []
  }

  function AppliedPart(s: Submission): seq<Message> {
    if Live(s) then s.messages[..s.applied] else []
  }

  function PendingPart(s: Submission): seq<Message> {
    if Live(s) then s.messages[s.applied..] else []
  }

  function Gather(store: seq<Submission>, f: Submission -> seq<Message>): seq<Message> {
    if store == [] then []
    else Gather(store[..|store| - 1], f) + f(store[|store| - 1])
  }

  /** Messages of a cancelled batch that a suspended call still has to send again. */
  function Held(rpc: Rpc): seq<Message> {
    match rpc
    case SubmitSending(n, rebuilt) => if rebuilt.messages == [] then [] else rebuilt.messages[..|rebuilt.messages| - 1]
    case CancelSending(rebuilt) => rebuilt.messages
    case _ => []
  }

  function FromQueue(transcript: seq<Entry>): seq<Message> {
    if transcript == [] then []
    else
      var last := transcript[|transcript| - 1];
      FromQueue(transcript[..|transcript| - 1]) + (if last.fromQueue then [last.message] else [])
  }

  /** The submitted messages that no successful cancel removed, in submit order. */
  function Surviving(submitted: seq<Message>, cancelled: set<string>): seq<Message> {
    if submitted == [] then []
    else
      var last := submitted[|submitted| - 1];
      Surviving(submitted[..|submitted| - 1], cancelled) + (if last.id in cancelled then [] else [last])
  }

  predicate DistinctIds(messages: seq<Message>) {
    forall p, q :: 0 <= p < q < |messages| ==> messages[p].id != messages[q].id
  }

  // ---------- invariant ----------

  predicate Aligned(items: seq<Item>, messages: seq<Message>) {
    && |items| == |messages| > 0
    && forall k :: 0 <= k < |items| ==> items[k].clientMessageId == messages[k].id
  }

  predicate RowOk(s: Submission) {
    && !s.status.Skipped? && !s.status.Error?
    && (s.status.Pending? || s.status.Aborted? ==> s.applied == 0)
    && (s.status.Completed? ==> s.applied == |s.messages|)
    && !s.metadata.LegacyV1?
    && (s.metadata.Batch? ==>
          && s.createdAt.Some?
          && s.metadata.messages == Some(s.messages)
          && Aligned(s.metadata.items, s.messages))
  }

  /** Batches are applied one after the other, and only the last one can be waiting. */
  predicate Sequential(store: seq<Submission>) {
    forall i, j :: 0 <= i < j < |store| && Live(store[i]) && Live(store[j]) ==>
      && store[i].applied > 0
      && (store[j].applied > 0 ==> store[i].applied == |store[i].messages|)
  }

  predicate NoneWaiting(store: seq<Submission>) {
    forall i :: 0 <= i < |store| ==> !IsWaiting(store[i])
  }

  predicate RebuiltOk(r: Rebuilt) {
    && r.metadata.Batch?
    && r.metadata.messages == Some(r.messages)
    && Aligned(r.metadata.items, r.messages)
  }

  predicate SameSubmission(was: Submission, now: Submission) {
    && was.metadata == now.metadata && was.messages == now.messages && was.createdAt == now.createdAt
    && (Live(was) <==> Live(now))
  }

  predicate SnapshotOk(snapshot: seq<Submission>, store: seq<Submission>) {
    && |snapshot| <= |store|
    && (forall i :: 0 <= i < |snapshot| ==>
      SameSubmission(snapshot[i], store[i]) && snapshot[i].applied <= store[i].applied)
    && (forall i :: 0 <= i < |snapshot| && snapshot[i].status.Completed? ==>
      snapshot[i].applied == |snapshot[i].messages|)
    && (forall i :: |snapshot| <= i < |store| ==> !store[i].metadata.Batch?)
  }

  predicate WaitingOk(w: Option<Waiting>, store: seq<Submission>) {
    && (w.Some? ==>
          && w.value.submissionId < |store|
          && Live(store[w.value.submissionId])
          && w.value.items == store[w.value.submissionId].metadata.items
          && w.value.messages == store[w.value.submissionId].messages)
    && forall i :: 0 <= i < |store| && IsWaiting(store[i]) ==> w.Some? && w.value.submissionId == i
  }

  predicate RpcOk(s: State) {
    match s.rpc
    case Idle => true
    case SubmitListing(n, _) => n.item.clientMessageId == n.message.id
    case SubmitListed(n, _, snapshot) => n.item.clientMessageId == n.message.id && SnapshotOk(snapshot, s.store)
    case SubmitFound(n, _, waiting) => n.item.clientMessageId == n.message.id && WaitingOk(waiting, s.store)
    case SubmitSending(n, rebuilt) =>
      RebuiltOk(rebuilt) && rebuilt.messages[|rebuilt.messages| - 1] == n.message && NoneWaiting(s.store)
    case CancelInspecting(_, _) => true
    case CancelInspected(id, _, current) =>
      current.Some? ==>
        && id < |s.store| && SameSubmission(current.value, s.store[id])
        && (current.value.status.Completed? ==> s.store[id].applied == |s.store[id].messages|)
    case CancelSending(rebuilt) => RebuiltOk(rebuilt) && NoneWaiting(s.store)
  }

  /** Nothing that did not come through the queue uses a reserved id. */
  predicate OthersFree(transcript: seq<Entry>, ids: set<string>) {
    forall e :: e in transcript && !e.fromQueue ==> e.message.id !in ids
  }

  predicate TranscriptOk(s: State) {
    && FromQueue(s.transcript) == Gather(s.store, AppliedPart)
    && OthersFree(s.transcript, ReservedIds(s))
    && UnrelatedFree(s.store, ReservedIds(s))
  }

  predicate RowsOk(store: seq<Submission>) {
    forall i :: 0 <= i < |store| ==> RowOk(store[i])
  }

  predicate LedgerOk(s: State) {
    && Gather(s.store, Whole) + Held(s.rpc) == Surviving(s.submitted, s.cancelled)
    && DistinctIds(s.submitted)
    && s.cancelled <= IdsOf(s.submitted)
    && (s.rpc.SubmitListing? || s.rpc.SubmitListed? || s.rpc.SubmitFound? || s.rpc.SubmitSending? ==>
          s.rpc.n.message.id !in IdsOf(s.submitted))
  }

  predicate Inv(s: State) {
    && RowsOk(s.store)
    && Sequential(s.store)
    && TranscriptOk(s)
    && LedgerOk(s)
    && RpcOk(s)
  }

  // ---------- sequences ----------

  lemma {:induction false} GatherAppendNothing(store: seq<Submission>, x: Submission, f: Submission -> seq<Message>)
    requires f(x) == []
    ensures Gather(store + [x], f) == Gather(store, f)
  {
    GatherAppend(store, x, f);
  }

  lemma {:induction false} GatherAppend(store: seq<Submission>, x: Submission, f: Submission -> seq<Message>)
    ensures Gather(store + [x], f) == Gather(store, f) + f(x)
  {
    assert (store + [x])[..|store|] == store;
  }

  lemma {:induction false} GatherSame(a: seq<Submission>, b: seq<Submission>, f: Submission -> seq<Message>)
    requires |a| == |b|
    requires forall i :: 0 <= i < |a| ==> f(a[i]) == f(b[i])
    ensures Gather(a, f) == Gather(b, f)
  {
    if a != [] {
      GatherSame(a[..|a| - 1], b[..|b| - 1], f);
    }
  }

  /** Only entries up to `i` contribute when every later one is empty. */
  lemma {:induction false} GatherUpTo(store: seq<Submission>, i: nat, f: Submission -> seq<Message>)
    requires i < |store|
    requires forall j :: i < j < |store| ==> f(store[j]) == []
    ensures Gather(store, f) == Gather(store[..i], f) + f(store[i])
  {
    var n := |store| - 1;
    if i < n {
      GatherUpTo(store[..n], i, f);
      assert store[..n][..i] == store[..i];
    }
  }

  lemma {:induction false} GatherNothing(store: seq<Submission>, f: Submission -> seq<Message>)
    requires forall i :: 0 <= i < |store| ==> f(store[i]) == []
    ensures Gather(store, f) == []
  {
    if store != [] {
      GatherNothing(store[..|store| - 1], f);
    }
  }

  lemma {:induction false} GatherContains(store: seq<Submission>, i: nat, m: Message, f: Submission -> seq<Message>)
    requires i < |store| && m in f(store[i])
    ensures m in Gather(store, f)
  {
    var n := |store| - 1;
    if i < n {
      GatherContains(store[..n], i, m, f);
    }
  }

  /** Applied messages come first, then the pending ones, because batches are applied in order. */
  lemma {:induction false} GatherSplits(store: seq<Submission>)
    requires Sequential(store)
    ensures Gather(store, Whole) == Gather(store, AppliedPart) + Gather(store, PendingPart)
  {
    if store != [] {
      var front, last := store[..|store| - 1], store[|store| - 1];
      assert forall i :: 0 <= i < |front| ==> front[i] == store[i];
      GatherSplits(front);
      assert PendingPart(last) == Whole(last) || AppliedPart(last) != [] by {
        assert Live(last) && last.applied == 0 ==> last.messages[0..] == last.messages;
      }
      if AppliedPart(last) != [] {
        GatherNothing(front, PendingPart);
      }
      WholeSplits(last);
      SplitStep(Gather(front, AppliedPart), Gather(front, PendingPart), AppliedPart(last), PendingPart(last));
    }
  }

  lemma {:induction false} WholeSplits(s: Submission)
    ensures Whole(s) == AppliedPart(s) + PendingPart(s)
  {
  }

  lemma {:induction false} SplitStep(x: seq<Message>, y: seq<Message>, u: seq<Message>, v: seq<Message>)
    ensures y == [] || u == [] ==> (x + y) + (u + v) == (x + u) + (y + v)
  {
    if y == [] {
      assert x + y == x && y + v == v;
      assert x + (u + v) == (x + u) + v;
    } else if u == [] {
      assert u + v == v && x + u == x;
      assert (x + y) + v == x + (y + v);
    }
  }

  lemma {:induction false} FromQueueMember(transcript: seq<Entry>, e: Entry)
    requires e in transcript && e.fromQueue
    ensures e.message in FromQueue(transcript)
  {
    var n := |transcript| - 1;
    if e != transcript[n] {
      assert e in transcript[..n];
      FromQueueMember(transcript[..n], e);
    }
  }

  lemma {:induction false} FromQueueOrigin(transcript: seq<Entry>, m: Message)
    requires m in FromQueue(transcript)
    ensures exists e :: e in transcript && e.fromQueue && e.message == m
  {
    var n := |transcript| - 1;
    if !(transcript[n].fromQueue && transcript[n].message == m) {
      FromQueueOrigin(transcript[..n], m);
    } else {
      assert transcript[n] in transcript;
    }
  }

  lemma {:induction false} SurvivingMember(messages: seq<Message>, cancelled: set<string>, m: Message)
    ensures m in Surviving(messages, cancelled) <==> m in messages && m.id !in cancelled
  {
    if messages != [] {
      SurvivingMember(messages[..|messages| - 1], cancelled, m);
      assert messages == messages[..|messages| - 1] + [messages[|messages| - 1]];
    }
  }

  lemma {:induction false} SurvivingDistinct(messages: seq<Message>, cancelled: set<string>)
    requires DistinctIds(messages)
    ensures DistinctIds(Surviving(messages, cancelled))
  {
    if messages != [] {
      var n := |messages| - 1;
      var front := Surviving(messages[..n], cancelled);
      SurvivingDistinct(messages[..n], cancelled);
      forall p | 0 <= p < |front| ensures front[p].id != messages[n].id {
        SurvivingMember(messages[..n], cancelled, front[p]);
      }
    }
  }

  lemma {:induction false} SurvivingTwice(messages: seq<Message>, c: set<string>, d: set<string>)
    ensures Surviving(messages, c + d) == Surviving(Surviving(messages, c), d)
  {
    if messages != [] {
      var n := |messages| - 1;
      SurvivingTwice(messages[..n], c, d);
      var kept := Surviving(messages[..n], c);
      if messages[n].id in c {
        assert Surviving(messages, c) == kept;
        assert Surviving(messages, c + d) == Surviving(messages[..n], c + d);
      } else {
        assert Surviving(messages, c) == kept + [messages[n]];
        assert (kept + [messages[n]])[..|kept|] == kept;
      }
    }
  }

  lemma {:induction false} SurvivingAll(messages: seq<Message>, c: set<string>)
    requires forall p :: 0 <= p < |messages| ==> messages[p].id !in c
    ensures Surviving(messages, c) == messages
  {
    if messages != [] {
      SurvivingAll(messages[..|messages| - 1], c);
    }
  }

  /** Dropping the one message with a given id is dropping it by position. */
  lemma {:induction false} RemoveIsSurviving(messages: seq<Message>, k: nat)
    requires k < |messages| && DistinctIds(messages)
    ensures Surviving(messages, {messages[k].id}) == RemoveAt(messages, k)
  {
    var n := |messages| - 1;
    RemoveAtEnd(messages, k);
    if k == n {
      SurvivingAll(messages[..n], {messages[k].id});
    } else {
      RemoveIsSurviving(messages[..n], k);
    }
  }

  lemma {:induction false} RemoveAtEnd<T>(s: seq<T>, k: nat)
    requires k < |s|
    ensures var n := |s| - 1;
            RemoveAt(s, k) == if k == n then s[..n] else RemoveAt(s[..n], k) + [s[n]]
  {
  }

  // ---------- what the applied check sees ----------

  /** The id-based check agrees with the drain loop's own progress. */
  lemma {:induction false} AppliedCheckExact(s: State, i: nat)
    requires Inv(s) && i < |s.store| && Live(s.store[i])
    ensures IsApplied(s.store[i].metadata.items, AppliedIds(s)) <==> s.store[i].applied > 0
  {
    var sub := s.store[i];
    assert RowOk(sub);
    if sub.applied > 0 {
      var m := sub.messages[0];
      assert AppliedPart(sub)[0] == m;
      GatherContains(s.store, i, m, AppliedPart);
      FromQueueOrigin(s.transcript, m);
      assert m.id in AppliedIds(s);
      assert sub.metadata.items[0].clientMessageId in AppliedIds(s);
    } else if IsApplied(sub.metadata.items, AppliedIds(s)) {
      var k :| 0 <= k < |sub.metadata.items| && sub.metadata.items[k].clientMessageId in AppliedIds(s);
      var m := sub.messages[k];
      var e :| e in s.transcript && e.message.id == m.id;
      GatherContains(s.store, i, m, Whole);
      SurvivingMember(s.submitted, s.cancelled, m);
      assert m in Gather(s.store, Whole) + Held(s.rpc);
      assert m.id in IdsOf(s.submitted);
      assert e.fromQueue;
      FromQueueMember(s.transcript, e);
      assert m == PendingPart(sub)[k];
      GatherContains(s.store, i, m, PendingPart);
      AppliedAndPendingDisjoint(s, e.message, m);
    }
  }

  lemma {:induction false} AppliedAndPendingDisjoint(s: State, a: Message, p: Message)
    requires Inv(s)
    requires a in Gather(s.store, AppliedPart) && p in Gather(s.store, PendingPart)
    ensures a.id != p.id
  {
    var x, y := Gather(s.store, AppliedPart), Gather(s.store, PendingPart);
    GatherSplits(s.store);
    SurvivingDistinct(s.submitted, s.cancelled);
    hide Inv, Gather, Surviving, Held;
    PartsDistinct(x, y, Held(s.rpc), a, p);
  }

  lemma {:induction false} PartsDistinct(x: seq<Message>, y: seq<Message>, z: seq<Message>, a: Message, p: Message)
    requires DistinctIds(x + y + z) && a in x && p in y
    ensures a.id != p.id
  {
    var u :| 0 <= u < |x| && x[u] == a;
    var v :| 0 <= v < |y| && y[v] == p;
    assert (x + y + z)[u] == a && (x + y + z)[|x| + v] == p;
  }
}
