/**
 Draining the injection buffer: peek, persist, delete, with a crash or a throw possible between any
 two steps and new deliveries and cancels at every await
 (src/agent/think-thread-agent.ts:1810-1825, 2017-2018, 5001-5023, 6638-6646; src/agent/injection-router.ts).
 */
module InjectionDrain {
  import opened Wrappers
  import opened InjectionBuffer

  /** Peeked rows on their way to durable storage; the first `done` have arrived. */
  datatype Flight = Flight(rows: seq<Row>, done: nat)

  datatype State = State(
    buffer: Buffer,
    transcript: seq<Row>,        // messages persisted by `addMessages`, in order
    submitted: seq<Row>,         // messages in durable submission rows
    drain: Option<Flight>,       // the running turn's drain
    kicks: seq<Flight>,          // turns being started from the buffer
    history: seq<Row>,           // every row ever enqueued
    cancelled: set<int>          // seqs taken out by a successful cancel
  )

  datatype Event =
    | Deliver(entry: Entry)
    | Cancel(key: string)
    | DrainPeek
    | DrainPersist
    | DrainDelete
    | DrainThrows
    | KickPeek
    | KickSubmit(i: nat)
    | KickDelete(i: nat)
    | KickThrows(i: nat)
    | Crash

  const EMPTY := State(Buffer([], 1), [], [], None, [], [], {})

  predicate HasId(rows: seq<Row>, id: string) {
    exists i :: 0 <= i < |rows| && rows[i].entry.message.id == id
  }

  /** `addMessages` of one message: a message whose id is already stored is not stored again. */
  function AddMessage(transcript: seq<Row>, row: Row): seq<Row> {
    if HasId(transcript, row.entry.message.id) then transcript else transcript + [row]
  }

  function Seqs(rows: seq<Row>): set<int> {
    set i | 0 <= i < |rows| :: rows[i].seqNo
  }

  /** Deliveries carry messages with fresh ids. */
  function DeliverStep(s: State, entry: Entry): State {
    if HasKey(s.buffer.rows, entry.key) || HasId(s.history, entry.message.id) then s
    else s.(buffer := Enqueue(s.buffer, entry), history := s.history + [Row(s.buffer.next, entry)])
  }

  function CancelStep(s: State, key: string): State {
    var row := Removable(s.buffer.rows, key, Some(UserMessage));
    if row.None? then s
    else s.(buffer := Remove(s.buffer, key, Some(UserMessage)), cancelled := s.cancelled + {row.value.seqNo})
  }

  function DrainStep(s: State, e: Event): State {
    match e
    case DrainPeek => if s.drain.None? && s.buffer.rows != [] then s.(drain := Some(Flight(s.buffer.rows, 0))) else s
    case DrainPersist =>
      if s.drain.Some? && s.drain.value.done < |s.drain.value.rows| then
        var f := s.drain.value;
        s.(transcript := AddMessage(s.transcript, f.rows[f.done]), drain := Some(f.(done := f.done + 1)))
      else s
    case DrainDelete =>
      if s.drain.Some? && s.drain.value.done == |s.drain.value.rows|
      then s.(buffer := DeleteDrained(s.buffer, Seqs(s.drain.value.rows)), drain := None)
      else s
    case DrainThrows => s.(drain := None)
    case _ => s
  }

  function KickStep(s: State, e: Event): State {
    match e
    case KickPeek => if s.buffer.rows != [] then s.(kicks := s.kicks + [Flight(s.buffer.rows, 0)]) else s
    case KickSubmit(i) =>
      if i < |s.kicks| && s.kicks[i].done < |s.kicks[i].rows|
      then s.(submitted := s.submitted + s.kicks[i].rows, kicks := s.kicks[i := s.kicks[i].(done := |s.kicks[i].rows|)])
      else s
    case KickDelete(i) =>
      if i < |s.kicks| && s.kicks[i].done == |s.kicks[i].rows|
      then s.(buffer := DeleteDrained(s.buffer, Seqs(s.kicks[i].rows)), kicks := RemoveAt(s.kicks, i))
      else s
    case KickThrows(i) => if i < |s.kicks| then s.(kicks := RemoveAt(s.kicks, i)) else s
    case _ => s
  }

  predicate IsKick(e: Event) {
    e.KickPeek? || e.KickSubmit? || e.KickDelete? || e.KickThrows?
  }

  function Next(s: State, e: Event): State {
    match e
    case Deliver(entry) => DeliverStep(s, entry)
    case Cancel(key) => CancelStep(s, key)
    case Crash => s.(drain := None, kicks := [])
    case _ => if IsKick(e) then KickStep(s, e) else DrainStep(s, e)
  }

  function Run(s: State, events: seq<Event>): State {
    if events == [] then s else Next(Run(s, events[..|events| - 1]), events[|events| - 1])
  }

  // ---------- the invariant ----------

  predicate Within(rows: seq<Row>, history: seq<Row>) {
    forall r :: r in rows ==> r in history
  }

  /** Rows are numbered in delivery order and carry distinct message ids. */
  predicate HistoryOk(history: seq<Row>, next: int) {
    && Rising(history)
    && (forall r :: r in history ==> r.seqNo < next)
    && (forall a, b :: a in history && b in history && a.entry.message.id == b.entry.message.id ==> a == b)
  }

  predicate DrainOk(f: Flight, transcript: seq<Row>, history: seq<Row>) {
    f.done <= |f.rows| && Within(f.rows, history) && Within(f.rows[..f.done], transcript)
  }

  predicate KickOk(f: Flight, submitted: seq<Row>, history: seq<Row>) {
    && f.done <= |f.rows| && Within(f.rows, history)
    && (f.done == |f.rows| ==> Within(f.rows, submitted))
  }

  predicate KicksOk(kicks: seq<Flight>, submitted: seq<Row>, history: seq<Row>) {
    forall i :: 0 <= i < |kicks| ==> KickOk(kicks[i], submitted, history)
  }

  /** Every delivered row is cancelled, still buffered, or durable. */
  predicate NothingLost(s: State) {
    forall r :: r in s.history ==>
      r.seqNo in s.cancelled || r in s.buffer.rows || r in s.transcript || r in s.submitted
  }

  predicate Inv(s: State) {
    && WellFormed(s.buffer)
    && HistoryOk(s.history, s.buffer.next)
    && Within(s.buffer.rows, s.history) && Within(s.transcript, s.history) && Within(s.submitted, s.history)
    && (s.drain.Some? ==> DrainOk(s.drain.value, s.transcript, s.history))
    && KicksOk(s.kicks, s.submitted, s.history)
    && NothingLost(s)
  }

  lemma {:induction false} SameSeqSameRow(history: seq<Row>, a: Row, b: Row)
    requires Rising(history) && a in history && b in history && a.seqNo == b.seqNo
    ensures a == b
  {
    var i :| 0 <= i < |history| && history[i] == a;
    var j :| 0 <= j < |history| && history[j] == b;
    assert i < j ==> history[i].seqNo < history[j].seqNo;
    assert j < i ==> history[j].seqNo < history[i].seqNo;
  }

  lemma {:induction false} SeqsContains(rows: seq<Row>)
    ensures forall r :: r in rows ==> r.seqNo in Seqs(rows)
    ensures forall k :: k in Seqs(rows) ==> exists r :: r in rows && r.seqNo == k
  {
    forall k | k in Seqs(rows) ensures exists r :: r in rows && r.seqNo == k {
      var i :| 0 <= i < |rows| && rows[i].seqNo == k;
      assert rows[i] in rows;
    }
  }

  /** Deleting by peeked seqs deletes only peeked rows. */
  lemma {:induction false} DeletesOnlyPeeked(rows: seq<Row>, peeked: seq<Row>, history: seq<Row>, r: Row)
    requires Rising(history) && Within(rows, history) && Within(peeked, history)
    requires r in rows
    ensures r in Without(rows, Seqs(peeked)) <==> r !in peeked
  {
    WithoutContains(rows, Seqs(peeked));
    SeqsContains(peeked);
    if r.seqNo in Seqs(peeked) {
      var p :| p in peeked && p.seqNo == r.seqNo;
      SameSeqSameRow(history, r, p);
    }
  }

  lemma {:induction false} AddContains(transcript: seq<Row>, row: Row, history: seq<Row>, next: int)
    requires HistoryOk(history, next) && Within(transcript, history) && row in history
    ensures row in AddMessage(transcript, row)
    ensures forall r :: r in AddMessage(transcript, row) <==> r in transcript || r == row
    ensures row in transcript ==> AddMessage(transcript, row) == transcript
    ensures row !in transcript ==> AddMessage(transcript, row) == transcript + [row]
  {
    if HasId(transcript, row.entry.message.id) {
      var i :| 0 <= i < |transcript| && transcript[i].entry.message.id == row.entry.message.id;
      assert transcript[i] in transcript;
    }
    StoredHasId(transcript, row);
  }

  lemma {:induction false} StoredHasId(rows: seq<Row>, row: Row)
    ensures row in rows ==> HasId(rows, row.entry.message.id)
  {
    if row in rows {
      var i :| 0 <= i < |rows| && rows[i] == row;
      assert rows[i].entry.message.id == row.entry.message.id;
    }
  }

  lemma {:induction false} DeliverKeepsInv(s: State, entry: Entry)
    requires Inv(s)
    ensures Inv(DeliverStep(s, entry))
  {
    if !HasKey(s.buffer.rows, entry.key) && !HasId(s.history, entry.message.id) {
      EnqueueKeepsWellFormed(s.buffer, entry);
      HistoryGrows(s.history, s.buffer.next, entry);
    }
  }

  lemma {:induction false} HistoryGrows(history: seq<Row>, next: int, entry: Entry)
    requires HistoryOk(history, next) && !HasId(history, entry.message.id)
    ensures HistoryOk(history + [Row(next, entry)], next + 1)
  {
    forall i | 0 <= i < |history| ensures history[i].seqNo < next {
      assert history[i] in history;
    }
    forall a | a in history ensures a.entry.message.id != entry.message.id {
      var i :| 0 <= i < |history| && history[i] == a;
    }
  }

  lemma {:induction false} CancelKeepsInv(s: State, key: string)
    requires Inv(s)
    ensures Inv(CancelStep(s, key))
  {
    var row := Removable(s.buffer.rows, key, Some(UserMessage));
    if row.Some? {
      DeleteKeepsWellFormed(s.buffer, {row.value.seqNo});
      WithoutContains(s.buffer.rows, {row.value.seqNo});
    }
  }

  lemma {:induction false} PersistKeepsInv(s: State)
    requires Inv(s) && s.drain.Some? && s.drain.value.done < |s.drain.value.rows|
    ensures Inv(DrainStep(s, DrainPersist))
  {
    var f := s.drain.value;
    AddContains(s.transcript, f.rows[f.done], s.history, s.buffer.next);
    assert f.rows[..f.done + 1] == f.rows[..f.done] + [f.rows[f.done]];
  }

  lemma {:induction false} DrainDeleteKeepsInv(s: State)
    requires Inv(s) && s.drain.Some? && s.drain.value.done == |s.drain.value.rows|
    ensures Inv(DrainStep(s, DrainDelete))
  {
    var f := s.drain.value;
    assert f.rows[..f.done] == f.rows;
    DeleteKeepsWellFormed(s.buffer, Seqs(f.rows));
    WithoutContains(s.buffer.rows, Seqs(f.rows));
    forall r | r in s.buffer.rows && r !in f.rows ensures r in Without(s.buffer.rows, Seqs(f.rows)) {
      DeletesOnlyPeeked(s.buffer.rows, f.rows, s.history, r);
    }
  }

  lemma {:induction false} DrainKeepsInv(s: State, e: Event)
    requires Inv(s)
    ensures Inv(DrainStep(s, e))
  {
    if e.DrainPersist? && s.drain.Some? && s.drain.value.done < |s.drain.value.rows| {
      PersistKeepsInv(s);
    } else if e.DrainDelete? && s.drain.Some? && s.drain.value.done == |s.drain.value.rows| {
      DrainDeleteKeepsInv(s);
    }
  }

  lemma {:induction false} KickSubmitKeepsInv(s: State, i: nat)
    requires Inv(s) && i < |s.kicks| && s.kicks[i].done < |s.kicks[i].rows|
    ensures Inv(KickStep(s, KickSubmit(i)))
  {
    assert KickOk(s.kicks[i], s.submitted, s.history);
  }

  lemma {:induction false} KickDeleteKeepsInv(s: State, i: nat)
    requires Inv(s) && i < |s.kicks| && s.kicks[i].done == |s.kicks[i].rows|
    ensures Inv(KickStep(s, KickDelete(i)))
  {
    var f := s.kicks[i];
    assert KickOk(f, s.submitted, s.history);
    DeleteKeepsWellFormed(s.buffer, Seqs(f.rows));
    WithoutContains(s.buffer.rows, Seqs(f.rows));
    forall r | r in s.buffer.rows && r !in f.rows ensures r in Without(s.buffer.rows, Seqs(f.rows)) {
      DeletesOnlyPeeked(s.buffer.rows, f.rows, s.history, r);
    }
  }

  lemma {:induction false} KickKeepsInv(s: State, e: Event)
    requires Inv(s)
    ensures Inv(KickStep(s, e))
  {
    match e
    case KickSubmit(i) =>
      if i < |s.kicks| && s.kicks[i].done < |s.kicks[i].rows| {
        KickSubmitKeepsInv(s, i);
      }
    case KickDelete(i) =>
      if i < |s.kicks| && s.kicks[i].done == |s.kicks[i].rows| {
        KickDeleteKeepsInv(s, i);
      }
    case _ =>
  }

  lemma {:induction false} CrashKeepsInv(s: State)
    requires Inv(s)
    ensures Inv(s.(drain := None, kicks := []))
  {
  }

  lemma {:induction false} StepKeepsInv(s: State, e: Event)
    requires Inv(s)
    ensures Inv(Next(s, e))
  {
    hide Inv, DeliverStep, CancelStep, KickStep, DrainStep;
    match e
    case Deliver(entry) => DeliverKeepsInv(s, entry);
    case Cancel(key) => CancelKeepsInv(s, key);
    case Crash => CrashKeepsInv(s);
    case _ =>
      if IsKick(e) {
        KickKeepsInv(s, e);
      } else {
        DrainKeepsInv(s, e);
      }
  }

  lemma {:induction false} RunKeepsInv(s: State, events: seq<Event>)
    requires Inv(s)
    ensures Inv(Run(s, events))
  {
    if events != [] {
      RunKeepsInv(s, events[..|events| - 1]);
      StepKeepsInv(Run(s, events[..|events| - 1]), events[|events| - 1]);
    }
  }

  lemma {:induction false} EmptyOk()
    ensures Inv(EMPTY)
  {
  }

  /** Over every run, with crashes and throws anywhere, a delivered message that no cancel took out is
      in the buffer or durably stored. */
  lemma {:induction false} NoInjectionLost(events: seq<Event>, row: Row)
    requires row in Run(EMPTY, events).history && row.seqNo !in Run(EMPTY, events).cancelled
    ensures var s := Run(EMPTY, events);
            row in s.buffer.rows || row in s.transcript || row in s.submitted
  {
    EmptyOk();
    RunKeepsInv(EMPTY, events);
  }

  /** A drain or kick takes out of the buffer only rows it peeked, all of them durable by then. */
  lemma {:induction false} DeletedIsDurable(events: seq<Event>, e: Event, row: Row)
    requires !e.Cancel?
    requires row in Run(EMPTY, events).buffer.rows && row !in Run(EMPTY, events + [e]).buffer.rows
    ensures var s := Run(EMPTY, events);
            || (e.DrainDelete? && s.drain.Some? && row in s.drain.value.rows && row in s.transcript)
            || (e.KickDelete? && e.i < |s.kicks| && row in s.kicks[e.i].rows && row in s.submitted)
  {
    EmptyOk();
    RunKeepsInv(EMPTY, events);
    var s := Run(EMPTY, events);
    assert (events + [e])[..|events|] == events;
    StepDeletesDurable(s, e, row);
  }

  lemma {:induction false} StepDeletesDurable(s: State, e: Event, row: Row)
    requires Inv(s) && !e.Cancel? && row in s.buffer.rows && row !in Next(s, e).buffer.rows
    ensures || (e.DrainDelete? && s.drain.Some? && row in s.drain.value.rows && row in s.transcript)
            || (e.KickDelete? && e.i < |s.kicks| && row in s.kicks[e.i].rows && row in s.submitted)
  {
    match e
    case DrainDelete =>
      var f := s.drain.value;
      DeletesOnlyPeeked(s.buffer.rows, f.rows, s.history, row);
      assert f.rows[..f.done] == f.rows;
    case KickDelete(i) =>
      assert KickOk(s.kicks[i], s.submitted, s.history);
      DeletesOnlyPeeked(s.buffer.rows, s.kicks[i].rows, s.history, row);
    case _ =>
  }

  // ---------- order ----------

  predicate NewerThanAll(r: Row, rows: seq<Row>) {
    forall t :: t in rows ==> t.seqNo < r.seqNo
  }

  /** Stored already, or later than everything stored. */
  predicate Ahead(r: Row, transcript: seq<Row>) {
    r in transcript || NewerThanAll(r, transcript)
  }

  predicate AllAhead(rows: seq<Row>, transcript: seq<Row>) {
    forall r :: r in rows ==> Ahead(r, transcript)
  }

  predicate FlightOrdered(f: Flight, buffer: seq<Row>, transcript: seq<Row>) {
    && Rising(f.rows) && AllAhead(f.rows, transcript)
    && forall r :: r in buffer ==> r in f.rows || NewerThanAll(r, f.rows)
  }

  predicate Ordered(s: State) {
    && s.kicks == [] && s.submitted == []
    && Rising(s.transcript) && AllAhead(s.buffer.rows, s.transcript)
    && (s.drain.Some? ==> FlightOrdered(s.drain.value, s.buffer.rows, s.transcript))
  }

  predicate DrainOnly(events: seq<Event>) {
    forall i :: 0 <= i < |events| ==> !IsKick(events[i])
  }

  predicate NoCancel(events: seq<Event>) {
    forall i :: 0 <= i < |events| ==> !events[i].Cancel?
  }

  lemma {:induction false} SubsetOrdered(s: State, t: State)
    requires Ordered(s) && t == s.(buffer := t.buffer, history := t.history, cancelled := t.cancelled)
    requires Within(t.buffer.rows, s.buffer.rows)
    ensures Ordered(t)
  {
  }

  lemma {:induction false} NewRowNewest(history: seq<Row>, next: int, rows: seq<Row>, r: Row)
    requires HistoryOk(history, next) && Within(rows, history) && r.seqNo == next
    ensures NewerThanAll(r, rows)
  {
  }

  lemma {:induction false} DeliverKeepsOrder(s: State, entry: Entry)
    requires Inv(s) && Ordered(s)
    ensures Ordered(DeliverStep(s, entry))
  {
    var r := Row(s.buffer.next, entry);
    NewRowNewest(s.history, s.buffer.next, s.transcript, r);
    if s.drain.Some? {
      NewRowNewest(s.history, s.buffer.next, s.drain.value.rows, r);
    }
  }

  /** Persisting the next peeked row leaves the rows behind it still ahead. */
  lemma {:induction false} StillAhead(f: Flight, transcript: seq<Row>, r: Row)
    requires f.done < |f.rows| && Rising(f.rows) && Within(f.rows[..f.done], transcript)
    requires Ahead(r, transcript) && (r in f.rows || NewerThanAll(r, f.rows))
    ensures Ahead(r, transcript + [f.rows[f.done]])
  {
    var row := f.rows[f.done];
    if r !in transcript && r != row {
      assert row in f.rows;
      assert f.rows == f.rows[..f.done] + f.rows[f.done..];
      LaterRises(f.rows, f.done, r);
      assert forall t :: t in transcript + [row] ==> t in transcript || t == row;
    }
  }

  lemma {:induction false} LaterRises(rows: seq<Row>, i: nat, r: Row)
    requires Rising(rows) && i < |rows|
    ensures r in rows[i..] ==> r == rows[i] || rows[i].seqNo < r.seqNo
  {
  }

  lemma {:induction false} PersistKeepsOrder(s: State)
    requires Inv(s) && Ordered(s) && s.drain.Some? && s.drain.value.done < |s.drain.value.rows|
    ensures Ordered(DrainStep(s, DrainPersist))
  {
    var f := s.drain.value;
    var row := f.rows[f.done];
    AddContains(s.transcript, row, s.history, s.buffer.next);
    if row !in s.transcript {
      assert Ahead(row, s.transcript);
      forall i | 0 <= i < |s.transcript| ensures s.transcript[i].seqNo < row.seqNo {
        assert s.transcript[i] in s.transcript;
      }
      SnocRises(s.transcript, row);
      forall r | r in f.rows || r in s.buffer.rows ensures Ahead(r, s.transcript + [row]) {
        StillAhead(f, s.transcript, r);
      }
    }
  }

  lemma {:induction false} StepKeepsOrder(s: State, e: Event)
    requires Inv(s) && Ordered(s) && !IsKick(e)
    ensures Ordered(Next(s, e))
  {
    match e
    case Deliver(entry) => DeliverKeepsOrder(s, entry);
    case Cancel(key) =>
      var row := Removable(s.buffer.rows, key, Some(UserMessage));
      if row.Some? {
        WithoutContains(s.buffer.rows, {row.value.seqNo});
        SubsetOrdered(s, CancelStep(s, key));
      }
    case DrainPersist =>
      if s.drain.Some? && s.drain.value.done < |s.drain.value.rows| {
        PersistKeepsOrder(s);
      }
    case DrainDelete =>
      if s.drain.Some? && s.drain.value.done == |s.drain.value.rows| {
        WithoutContains(s.buffer.rows, Seqs(s.drain.value.rows));
      }
    case _ =>
  }

  /** Without kicks the transcript holds each message at most once, in delivery order, whatever
      crashes, throws and cancels happen. */
  lemma {:induction false} DrainOnlyInOrder(events: seq<Event>)
    requires DrainOnly(events)
    ensures Inv(Run(EMPTY, events)) && Ordered(Run(EMPTY, events))
    ensures Rising(Run(EMPTY, events).transcript)
  {
    if events != [] {
      var front := events[..|events| - 1];
      DrainOnlyInOrder(front);
      StepKeepsInv(Run(EMPTY, front), events[|events| - 1]);
      StepKeepsOrder(Run(EMPTY, front), events[|events| - 1]);
    }
  }

  lemma {:induction false} NothingCancelled(events: seq<Event>)
    requires NoCancel(events)
    ensures Run(EMPTY, events).cancelled == {}
  {
    if events != [] {
      NothingCancelled(events[..|events| - 1]);
      assert !events[|events| - 1].Cancel?;
    }
  }

  /** A rising part of a rising list whose every gap lies behind it is a prefix. */
  lemma {:induction false} ClosedPartIsPrefix(part: seq<Row>, history: seq<Row>, i: nat)
    requires Rising(history) && Rising(part) && Within(part, history) && AllAhead(history, part)
    requires i < |part|
    ensures i < |history| && part[i] == history[i]
  {
    forall k | 0 <= k < i ensures k < |history| && part[k] == history[k] {
      ClosedPartIsPrefix(part, history, k);
    }
    assert part[i] in part;
    var j :| 0 <= j < |history| && history[j] == part[i];
    PrefixNoSkip(part, history, i, j);
  }

  lemma {:induction false} PrefixNoSkip(part: seq<Row>, history: seq<Row>, i: nat, j: nat)
    requires Rising(history) && Rising(part) && AllAhead(history, part)
    requires i < |part| && j < |history| && history[j] == part[i]
    requires forall k :: 0 <= k < i ==> k < |history| && part[k] == history[k]
    ensures i == j
  {
    assert part[i] in part && history[i] in history;
    NotBefore(part, history, i, j);
    NotAfter(part, history, i, j);
  }

  lemma {:induction false} NotBefore(part: seq<Row>, history: seq<Row>, i: nat, j: nat)
    requires Rising(part) && i < |part| && j < |history| && history[j] == part[i]
    requires forall k :: 0 <= k < i ==> k < |history| && part[k] == history[k]
    ensures i <= j
  {
  }

  lemma {:induction false} NotAfter(part: seq<Row>, history: seq<Row>, i: nat, j: nat)
    requires Rising(history) && Rising(part) && i < |part| && i <= j < |history| && history[j] == part[i]
    requires part[i] in part && Ahead(history[i], part)
    requires forall k :: 0 <= k < i ==> k < |history| && part[k] == history[k]
    ensures i == j
  {
  }

  /** With neither kicks nor cancels the transcript is exactly the messages delivered so far up to
      some point, and everything delivered after that point is still buffered. */
  lemma {:induction false} DrainIsFifo(events: seq<Event>)
    requires DrainOnly(events) && NoCancel(events)
    ensures var s := Run(EMPTY, events);
            && |s.transcript| <= |s.history| && s.transcript == s.history[..|s.transcript|]
            && Within(s.history[|s.transcript|..], s.buffer.rows)
  {
    var s := Run(EMPTY, events);
    DrainOnlyInOrder(events);
    NothingCancelled(events);
    forall r | r in s.history ensures Ahead(r, s.transcript) {
      assert r in s.buffer.rows || r in s.transcript;
    }
    forall i | 0 <= i < |s.transcript| ensures i < |s.history| && s.transcript[i] == s.history[i] {
      ClosedPartIsPrefix(s.transcript, s.history, i);
    }
    if s.transcript != [] {
      ClosedPartIsPrefix(s.transcript, s.history, |s.transcript| - 1);
    }
    RestBuffered(s);
  }

  lemma {:induction false} RestBuffered(s: State)
    requires Inv(s) && s.cancelled == {} && s.submitted == []
    requires |s.transcript| <= |s.history| && s.transcript == s.history[..|s.transcript|]
    ensures Within(s.history[|s.transcript|..], s.buffer.rows)
  {
    var n := |s.transcript|;
    forall r | r in s.history[n..] ensures r in s.buffer.rows {
      var j :| n <= j < |s.history| && s.history[j] == r;
      assert r in s.history;
      NotEarlier(s.history, n, j);
    }
  }

  lemma {:induction false} NotEarlier(history: seq<Row>, n: nat, j: nat)
    requires Rising(history) && n <= j < |history|
    ensures history[j] !in history[..n]
  {
  }

  // ---------- cancelling a steer ----------

  predicate Reached(s: State, row: Row) {
    row in s.transcript || row in s.submitted
  }

  predicate ReachedBy(s: State, events: seq<Event>, row: Row) {
    Reached(Run(s, events), row)
  }

  predicate KickHolds(kicks: seq<Flight>, row: Row) {
    exists i :: 0 <= i < |kicks| && kicks[i].done < |kicks[i].rows| && row in kicks[i].rows
  }

  /** Already stored, or peeked by a drain or kick that has not stored it yet. */
  predicate Held(s: State, row: Row) {
    || Reached(s, row)
    || (s.drain.Some? && s.drain.value.done <= |s.drain.value.rows| && row in s.drain.value.rows[s.drain.value.done..])
    || KickHolds(s.kicks, row)
  }

  predicate Gone(s: State, row: Row) {
    row in s.history && row !in s.buffer.rows && !Held(s, row)
  }

  lemma {:induction false} DrainKeepsGone(s: State, e: Event, row: Row)
    requires Inv(s) && Gone(s, row)
    ensures Gone(DrainStep(s, e), row)
  {
    if e.DrainPersist? && s.drain.Some? && s.drain.value.done < |s.drain.value.rows| {
      var f := s.drain.value;
      AddContains(s.transcript, f.rows[f.done], s.history, s.buffer.next);
      assert f.rows[f.done..] == [f.rows[f.done]] + f.rows[f.done + 1..];
    } else if e.DrainDelete? && s.drain.Some? {
      WithoutContains(s.buffer.rows, Seqs(s.drain.value.rows));
    }
  }

  /** A kick comes to hold a row only by peeking it. */
  lemma {:induction false} KickHoldsOnlyPeeked(s: State, e: Event, row: Row)
    ensures KickHolds(KickStep(s, e).kicks, row) ==> KickHolds(s.kicks, row) || row in s.buffer.rows
  {
    var t := KickStep(s, e);
    if KickHolds(t.kicks, row) {
      var i :| 0 <= i < |t.kicks| && t.kicks[i].done < |t.kicks[i].rows| && row in t.kicks[i].rows;
      assert t.kicks[i] in s.kicks || t.kicks[i].rows == s.buffer.rows;
    }
  }

  lemma {:induction false} KickKeepsGone(s: State, e: Event, row: Row)
    requires Inv(s) && Gone(s, row)
    ensures Gone(KickStep(s, e), row)
  {
    KickHoldsOnlyPeeked(s, e, row);
    if e.KickDelete? && e.i < |s.kicks| {
      WithoutContains(s.buffer.rows, Seqs(s.kicks[e.i].rows));
    }
  }

  lemma {:induction false} StepKeepsGone(s: State, e: Event, row: Row)
    requires Inv(s) && Gone(s, row)
    ensures Gone(Next(s, e), row)
  {
    match e
    case Deliver(entry) =>
      StoredHasId(s.history, row);
    case Cancel(key) =>
      var taken := Removable(s.buffer.rows, key, Some(UserMessage));
      if taken.Some? {
        WithoutContains(s.buffer.rows, {taken.value.seqNo});
      }
    case Crash =>
    case _ =>
      if IsKick(e) {
        KickKeepsGone(s, e, row);
      } else {
        DrainKeepsGone(s, e, row);
      }
  }

  lemma {:induction false} GoneForever(s: State, events: seq<Event>, row: Row)
    requires Inv(s) && Gone(s, row)
    ensures !Reached(Run(s, events), row) && Gone(Run(s, events), row)
  {
    if events != [] {
      var front := events[..|events| - 1];
      GoneForever(s, front, row);
      RunKeepsInv(s, front);
      StepKeepsGone(Run(s, front), events[|events| - 1], row);
    }
  }

  function Persists(n: nat): seq<Event> {
    if n == 0 then [] else Persists(n - 1) + [DrainPersist]
  }

  lemma {:induction false} PersistAdvances(s: State)
    requires s.drain.Some? && s.drain.value.done < |s.drain.value.rows|
    ensures Next(s, DrainPersist).drain == Some(Flight(s.drain.value.rows, s.drain.value.done + 1))
  {
  }

  lemma {:induction false} PersistsArrive(s: State, n: nat)
    requires s.drain.Some? && s.drain.value.done + n <= |s.drain.value.rows|
    ensures var f := s.drain.value; Run(s, Persists(n)).drain == Some(Flight(f.rows, f.done + n))
  {
    if n > 0 {
      hide Next;
      PersistsArrive(s, n - 1);
      PersistAdvances(Run(s, Persists(n - 1)));
      RunSnoc(s, Persists(n - 1), DrainPersist);
    }
  }

  lemma {:induction false} RunSnoc(s: State, events: seq<Event>, e: Event)
    ensures Run(s, events + [e]) == Next(Run(s, events), e)
  {
    assert (events + [e])[..|events|] == events;
  }

  // ---------- an undisturbed drain or kick ----------

  lemma {:induction false} NothingLeft(rows: seq<Row>, seqs: set<int>)
    requires forall i :: 0 <= i < |rows| ==> rows[i].seqNo in seqs
    ensures Without(rows, seqs) == []
  {
    if rows != [] {
      NothingLeft(rows[..|rows| - 1], seqs);
    }
  }

  /** Storing goes on behind what is stored, changes nothing else, and stores only what was peeked. */
  lemma {:induction false} PersistsStore(s: State, n: nat)
    requires s.drain.Some? && s.drain.value.done + n <= |s.drain.value.rows|
    ensures var t := Run(s, Persists(n));
            && t == s.(transcript := t.transcript, drain := Some(Flight(s.drain.value.rows, s.drain.value.done + n)))
            && s.transcript <= t.transcript
            && forall r :: r in t.transcript ==> r in s.transcript || r in s.drain.value.rows
  {
    if n > 0 {
      PersistsStore(s, n - 1);
      RunSnoc(s, Persists(n - 1), DrainPersist);
      PersistOne(Run(s, Persists(n - 1)));
    }
  }

  lemma {:induction false} PersistOne(s: State)
    requires s.drain.Some? && s.drain.value.done < |s.drain.value.rows|
    ensures var f, t := s.drain.value, Next(s, DrainPersist);
            && t == s.(transcript := t.transcript, drain := Some(Flight(f.rows, f.done + 1)))
            && s.transcript <= t.transcript
            && forall r :: r in t.transcript ==> r in s.transcript || r in f.rows
  {
    var f := s.drain.value;
    assert f.rows[f.done] in f.rows;
  }

  lemma {:induction false} RunThen(s: State, first: Event, events: seq<Event>)
    ensures Run(s, [first] + events) == Run(Next(s, first), events)
  {
    if events == [] {
      assert [first] + [] == [first];
      RunSnoc(s, [], first);
      assert [] + [first] == [first];
    } else {
      var front, last := events[..|events| - 1], events[|events| - 1];
      RunThen(s, first, front);
      RunSnoc(s, [first] + front, last);
      assert [first] + events == [first] + front + [last];
    }
  }

  /** A drain nobody disturbs stores everything buffered behind the transcript, nothing else, and leaves the
      buffer empty. */
  lemma {:induction false} DrainDelivers(s: State) returns (events: seq<Event>)
    requires Inv(s) && s.drain.None? && s.buffer.rows != []
    ensures var t := Run(s, events);
            && t == s.(buffer := Buffer([], s.buffer.next), transcript := t.transcript)
            && s.transcript <= t.transcript
            && forall r :: r in t.transcript <==> r in s.transcript || r in s.buffer.rows
  {
    hide Inv, WellFormed, HistoryOk;
    var rows := s.buffer.rows;
    var peeked := Next(s, DrainPeek);
    assert peeked == s.(drain := Some(Flight(rows, 0)));
    var stored := Run(peeked, Persists(|rows|));
    PersistsStore(peeked, |rows|);
    StepKeepsInv(s, DrainPeek);
    RunKeepsInv(peeked, Persists(|rows|));
    AllStored(stored);
    NothingLeft(rows, Seqs(rows));
    RunSnoc(peeked, Persists(|rows|), DrainDelete);
    RunThen(s, DrainPeek, Persists(|rows|) + [DrainDelete]);
    events := [DrainPeek] + (Persists(|rows|) + [DrainDelete]);
  }

  lemma {:induction false} AllStored(s: State)
    requires Inv(s) && s.drain.Some? && s.drain.value.done == |s.drain.value.rows|
    ensures forall r :: r in s.drain.value.rows ==> r in s.transcript
  {
    var f := s.drain.value;
    assert f.rows[..f.done] == f.rows;
  }

  /** So does a kick, into a durable submission, whatever other kicks are under way. */
  lemma {:induction false} KickDelivers(s: State)
    requires s.buffer.rows != []
    ensures var k := |s.kicks|;
            Run(s, [KickPeek, KickSubmit(k), KickDelete(k)])
            == s.(buffer := Buffer([], s.buffer.next), submitted := s.submitted + s.buffer.rows)
  {
    var k, rows := |s.kicks|, s.buffer.rows;
    var a := Next(s, KickPeek);
    assert a == s.(kicks := s.kicks + [Flight(rows, 0)]);
    var b := Next(a, KickSubmit(k));
    assert a.kicks[k := Flight(rows, |rows|)] == s.kicks + [Flight(rows, |rows|)];
    assert b == s.(kicks := s.kicks + [Flight(rows, |rows|)], submitted := s.submitted + rows);
    NothingLeft(rows, Seqs(rows));
    assert RemoveAt(b.kicks, k) == s.kicks;
    RunThen(s, KickPeek, [KickSubmit(k), KickDelete(k)]);
    RunThen(a, KickSubmit(k), [KickDelete(k)]);
    RunThen(b, KickDelete(k), []);
    assert [KickPeek] + [KickSubmit(k), KickDelete(k)] == [KickPeek, KickSubmit(k), KickDelete(k)];
    assert [KickSubmit(k)] + [KickDelete(k)] == [KickSubmit(k), KickDelete(k)];
    assert [KickDelete(k)] + [] == [KickDelete(k)];
  }

  lemma {:induction false} HeldCanArrive(s: State, row: Row) returns (events: seq<Event>)
    requires Inv(s) && Held(s, row)
    ensures Reached(Run(s, events), row)
  {
    if Reached(s, row) {
      events := [];
    } else if KickHolds(s.kicks, row) {
      var i :| 0 <= i < |s.kicks| && s.kicks[i].done < |s.kicks[i].rows| && row in s.kicks[i].rows;
      events := [KickSubmit(i)];
      assert events[..0] == [];
    } else {
      var f := s.drain.value;
      var n := |f.rows| - f.done;
      events := Persists(n);
      PersistsArrive(s, n);
      RunKeepsInv(s, events);
      assert f.rows[..|f.rows|] == f.rows;
    }
  }

  lemma {:induction false} CancelLeavesRow(s: State, key: string)
    requires Inv(s) && Removable(s.buffer.rows, key, Some(UserMessage)).Some?
    ensures var row := Removable(s.buffer.rows, key, Some(UserMessage)).value;
            && row in s.history && row !in CancelStep(s, key).buffer.rows
            && (Held(CancelStep(s, key), row) <==> Held(s, row))
  {
    RemovableIsPending(s.buffer.rows, key, Some(UserMessage));
    var row := Removable(s.buffer.rows, key, Some(UserMessage)).value;
    WithoutContains(s.buffer.rows, {row.seqNo});
  }

  /** A steer cancelled successfully can still reach the model exactly when, at the moment of the
      cancel, it was already stored or held by a drain or kick that had peeked it. */
  lemma {:induction false} CancelRaceExact(s: State, key: string)
    requires Inv(s) && Removable(s.buffer.rows, key, Some(UserMessage)).Some?
    ensures var row := Removable(s.buffer.rows, key, Some(UserMessage)).value;
            (exists events :: ReachedBy(CancelStep(s, key), events, row)) <==> Held(s, row)
  {
    var row := Removable(s.buffer.rows, key, Some(UserMessage)).value;
    var t := CancelStep(s, key);
    CancelLeavesRow(s, key);
    CancelKeepsInv(s, key);
    if Held(s, row) {
      var events := HeldCanArrive(t, row);
      assert ReachedBy(CancelStep(s, key), events, row);
    } else {
      forall events ensures !ReachedBy(t, events, row) {
        GoneForever(t, events, row);
      }
    }
  }

  const STEER := Entry("k", UserMessage, Message("m", "text"))

  lemma {:induction false} OneSteer()
    ensures Next(EMPTY, Deliver(STEER)) == EMPTY.(buffer := Buffer([Row(1, STEER)], 2), history := [Row(1, STEER)])
  {
  }

  lemma {:induction false} CancelOneSteer(s: State)
    requires s.buffer == Buffer([Row(1, STEER)], 2)
    ensures CancelStep(s, "k") == s.(buffer := Buffer([], 2), cancelled := s.cancelled + {1})
  {
    var row := Row(1, STEER);
    assert [row][..0] == [];
    assert Removable([row], "k", Some(UserMessage)) == Some(row);
    assert Without([row], {1}) == [];
  }

  /** The race: the cancel reports success while a drain is storing the message. */
  lemma {:induction false} CancelledSteerArrives()
    ensures var s := Run(EMPTY, [Deliver(STEER), DrainPeek, Cancel("k"), DrainPersist]);
            s.cancelled == {1} && s.transcript == [Row(1, STEER)]
  {
    OneSteer();
    CancelOneSteer(Next(Next(EMPTY, Deliver(STEER)), DrainPeek));
    RunFour(Deliver(STEER), DrainPeek, Cancel("k"), DrainPersist);
  }

  lemma {:induction false} RunTwo(a: Event, b: Event)
    ensures Run(EMPTY, [a, b]) == Next(Next(EMPTY, a), b)
  {
    RunSnoc(EMPTY, [], a);
    RunSnoc(EMPTY, [a], b);
    assert [] + [a] == [a] && [a] + [b] == [a, b];
  }

  lemma {:induction false} RunFour(a: Event, b: Event, c: Event, d: Event)
    ensures Run(EMPTY, [a, b, c, d]) == Next(Next(Next(Next(EMPTY, a), b), c), d)
  {
    RunTwo(a, b);
    RunSnoc(EMPTY, [a, b], c);
    RunSnoc(EMPTY, [a, b, c], d);
    assert [a, b] + [c] == [a, b, c] && [a, b, c] + [d] == [a, b, c, d];
  }
}
