/**
 The queue of user messages waiting behind a running turn (src/agent/queued-user-messages.ts).

 The queue keeps at most one waiting submission carrying every waiting message: submitting or
 cancelling a message cancels that submission and submits a rebuilt one. Both calls suspend at
 every await, and the drain loop claims and applies submissions while they are suspended. This
 file holds the pure pieces: the stored batch, its edits, and the search for the waiting batch.
 */
module QueuedMessages {
  import opened Wrappers

  datatype Status = Pending | Running | Completed | Aborted | Skipped | Error

  datatype Message = Message(id: string, text: string)

  datatype Item = Item(clientMessageId: string, textPreview: string)

  datatype Normalized = Normalized(message: Message, item: Item)

  /** Submission metadata: not a queue entry, the single-message legacy shape, or a batch whose
      stored messages may be missing. */
  datatype Metadata =
    | Unrelated
    | LegacyV1(item: Item)
    | Batch(items: seq<Item>, messages: Option<seq<Message>>, feedback: Option<string>)

  datatype ParsedBatch = ParsedBatch(items: seq<Item>, messages: Option<seq<Message>>)

  datatype Rebuilt = Rebuilt(metadata: Metadata, messages: seq<Message>)

  /** A submission row. `messages` is the runtime's own copy and `applied` counts how many of
      them the drain loop has appended to the transcript. The row's index is its id. */
  datatype SubmissionRow = SubmissionRow(
    status: Status, createdAt: Option<int>, metadata: Metadata, messages: seq<Message>, applied: nat)

  type Submission = s: SubmissionRow | s.applied <= |s.messages|
    witness SubmissionRow(Pending, None, Unrelated, [], 0)

  datatype Waiting = Waiting(submissionId: nat, createdAt: int, items: seq<Item>, messages: seq<Message>)

  function ParseBatch(metadata: Metadata): Option<ParsedBatch> {
    match metadata
    case Unrelated => None
    case LegacyV1(item) => Some(ParsedBatch([item], None))
    case Batch(items, messages, _) =>
      if |items| == 0 then None
      else if messages.Some? && |messages.value| == |items| then Some(ParsedBatch(items, messages))
      else Some(ParsedBatch(items, None))
  }

  predicate IsApplied(items: seq<Item>, applied: set<string>) {
    exists k :: 0 <= k < |items| && items[k].clientMessageId in applied
  }

  predicate CanCancel(status: Status, items: seq<Item>, applied: set<string>) {
    (status.Pending? || status.Running?) && !IsApplied(items, applied)
  }

  function AppendToBatch(existing: Option<Waiting>, n: Normalized, feedback: Option<string>): Rebuilt {
    var items := (if existing.Some? then existing.value.items else []) + [n.item];
    var messages := (if existing.Some? then existing.value.messages else []) + [n.message];
    Rebuilt(Batch(items, Some(messages), feedback), messages)
  }

  function FindItem(items: seq<Item>, clientMessageId: string): (k: nat)
    ensures k <= |items|
    ensures forall j :: 0 <= j < k ==> items[j].clientMessageId != clientMessageId
    ensures k < |items| ==> items[k].clientMessageId == clientMessageId
  {
    if items == [] then 0
    else if items[0].clientMessageId == clientMessageId then 0
    else 1 + FindItem(items[1..], clientMessageId)
  }

  function RemoveFromBatch(items: seq<Item>, messages: seq<Message>, clientMessageId: string): Option<Rebuilt> {
    var k := FindItem(items, clientMessageId);
    if k == |items| then None
    else
      var kept := RemoveAt(items, k);
      if |kept| == 0 then None
      else Some(Rebuilt(Batch(kept, Some(RemoveAt(messages, k)), None), RemoveAt(messages, k)))
  }

  /** Which stored shapes read as a batch: a single legacy item, or a list that is not empty; its messages count
      only where there is one for every item. */
  lemma {:induction false} ParsesExactly(metadata: Metadata)
    ensures ParseBatch(metadata).Some? <==> metadata.LegacyV1? || (metadata.Batch? && metadata.items != [])
    ensures metadata.LegacyV1? ==> ParseBatch(metadata).value.items == [metadata.item]
    ensures metadata.Batch? && metadata.items != [] ==> ParseBatch(metadata).value.items == metadata.items
    ensures ParseBatch(metadata).Some? ==>
              (ParseBatch(metadata).value.messages.Some?
               <==> metadata.Batch? && metadata.messages.Some? && |metadata.messages.value| == |metadata.items|)
    ensures ParseBatch(metadata).Some? && ParseBatch(metadata).value.messages.Some? ==>
              ParseBatch(metadata).value.messages == metadata.messages
  {
  }

  /** A submission that a new message may still be merged into. */
  predicate Mergeable(s: Submission, applied: set<string>) {
    && (s.status.Pending? || s.status.Running?)
    && s.createdAt.Some?
    && ParseBatch(s.metadata).Some?
    && ParseBatch(s.metadata).value.messages.Some?
    && !IsApplied(ParseBatch(s.metadata).value.items, applied)
  }

  function WaitingAt(subs: seq<Submission>, i: nat, applied: set<string>): Waiting
    requires i < |subs| && Mergeable(subs[i], applied)
  {
    var batch := ParseBatch(subs[i].metadata).value;
    Waiting(i, subs[i].createdAt.value, batch.items, batch.messages.value)
  }

  /** The newest mergeable submission, the earliest listed one among equals. */
  function LatestWaiting(subs: seq<Submission>, applied: set<string>): (w: Option<Waiting>)
    ensures w.None? <==> forall i :: 0 <= i < |subs| ==> !Mergeable(subs[i], applied)
    ensures w.Some? ==>
      && w.value.submissionId < |subs|
      && Mergeable(subs[w.value.submissionId], applied)
      && w.value == WaitingAt(subs, w.value.submissionId, applied)
      && forall i :: 0 <= i < |subs| && Mergeable(subs[i], applied) ==>
           && subs[i].createdAt.value <= w.value.createdAt
           && (i < w.value.submissionId ==> subs[i].createdAt.value < w.value.createdAt)
  {
    if subs == [] then None
    else
      var n := |subs| - 1;
      var w := LatestWaiting(subs[..n], applied);
      assert forall i :: 0 <= i < n ==> subs[..n][i] == subs[i];
      if Mergeable(subs[n], applied) && (w.None? || w.value.createdAt < subs[n].createdAt.value)
      then Some(WaitingAt(subs, n, applied))
      else w
  }

  /** The scan of `findWaitingQueuedBatch`: keep the newest submission seen so far. */
  method FindWaitingQueuedBatch(subs: seq<Submission>, applied: set<string>) returns (waiting: Option<Waiting>)
    ensures waiting == LatestWaiting(subs, applied)
  {
    hide ParseBatch, IsApplied;
    waiting := None;
    var i := 0;
    while i < |subs|
      invariant i <= |subs|
      invariant waiting == LatestWaiting(subs[..i], applied)
    {
      var s := subs[i];
      assert subs[..i + 1][..i] == subs[..i];
      i := i + 1;
      if !s.status.Pending? && !s.status.Running? { continue; }
      if s.createdAt.None? { continue; }
      var batch := ParseBatch(s.metadata);
      if batch.None? || batch.value.messages.None? { continue; }
      if IsApplied(batch.value.items, applied) { continue; }
      if waiting.Some? && waiting.value.createdAt >= s.createdAt.value { continue; }
      waiting := Some(Waiting(i - 1, s.createdAt.value, batch.value.items, batch.value.messages.value));
    }
    assert subs[..|subs|] == subs;
  }
}
