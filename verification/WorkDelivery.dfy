/**
 Who tells the model about finished work: ledger sweeps, pushed process completions and run-finish
 callbacks interleaving at every await (src/agent/think-thread-agent.ts).
 */
module WorkDelivery {
  import opened Wrappers
  import opened WorkLedger

  /** The ledger together with a history of what was done to it. */
  datatype Books = Books(
    rows: Ledger,
    known: set<Id>,          // every id ever registered
    closings: seq<Id>,       // one entry per terminal written
    told: seq<Id>,           // one entry per completion enqueued for the model
    silent: set<Id>          // closed by a writer that owes the model nothing
  )

  /** A sweep between two awaits. */
  datatype Sweep = Sweep(
    now: int,
    snapshot: Ledger,                        // the open rows as they were listed
    current: Option<CurrentGeneration>,      // not resolved yet when None
    todo: seq<Id>,                           // listed open, not yet classified
    retry: seq<Id>,                          // listed owed, not yet retried
    delivering: Option<Id>                   // awaiting this row's facts before delivering
  )

  datatype State = State(books: Books, sweep: Option<Sweep>, pushes: set<Id>)

  datatype Event =
    | Register(id: Id, row: WorkRow)
    | StampAlive(id: Id, at: int)
    | Abandon(id: Id)
    | PushArrives(id: Id)
    | PushCompletes(id: Id, now: int, throws: bool)
    | Finish(id: Id, terminal: Terminal)
    | SweepStart(now: int, todo: seq<Id>, retry: seq<Id>)
    | SweepResolve(current: CurrentGeneration)
    | SweepClassify
    | SweepRetry(watched: bool)
    | SweepDeliver(at: int, throws: bool)
    | SweepEnd
    | Crash

  function Close(b: Books, id: Id, terminal: Terminal): Books {
    if Closes(b.rows, id) then b.(rows := Terminalized(b.rows, id, terminal), closings := b.closings + [id]) else b
  }

  /** Enqueue the completion, then stamp; a throwing delivery enqueues nothing and leaves the row owed. */
  function Deliver(b: Books, id: Id, at: int, throws: bool): Books {
    if throws then b else b.(rows := MarkedDelivered(b.rows, id, at), told := b.told + [id])
  }

  /** `onAgentToolFinish`: stamps the row only if this call closed it. */
  function FinishRun(b: Books, id: Id, terminal: Terminal): Books {
    if Closes(b.rows, id) then
      var closed := Close(b, id, terminal);
      closed.(rows := MarkedDelivered(closed.rows, id, terminal.at), silent := closed.silent + {id})
    else b
  }

  /** `reportProcessCompletion` after its await: close, deliver and stamp without another one. */
  function CompletePush(b: Books, id: Id, now: int, throws: bool): Books {
    if Closes(b.rows, id) then Deliver(Close(b, id, Terminal(Exited, ProcessExit, now)), id, now, throws) else b
  }

  function StartSweep(s: State, now: int, todo: seq<Id>, retry: seq<Id>): State {
    if s.sweep.None? && Lists(todo, OpenIds(s.books.rows)) && Lists(retry, OwedIds(s.books.rows)) && todo + retry != []
    then s.(sweep := Some(Sweep(now, s.books.rows, None, todo, retry, None)))
    else s
  }

  /** Classify the next listed row as it was when listed, and close it in the ledger as it is now. */
  function ClassifyNext(s: State, w: Sweep): State
    requires w.current.Some? && w.todo != []
  {
    var id := w.todo[0];
    var rest := w.(todo := w.todo[1..]);
    if id !in w.snapshot then s.(sweep := Some(rest))
    else
      match Classify(w.snapshot[id], w.current.value, w.now)
      case Alive => s.(sweep := Some(rest))
      case Gone(outcome, reason) =>
        State(Close(s.books, id, Terminal(outcome, reason, w.now)),
              Some(rest.(delivering := if Closes(s.books.rows, id) then Some(id) else None)), s.pushes)
  }

  /** A live watcher on a process row still owes its delivery, so the retry leaves that row alone. */
  function RetryNext(s: State, w: Sweep, watched: bool): State
    requires w.retry != []
  {
    var id := w.retry[0];
    var skip := watched && id in w.snapshot && w.snapshot[id].kind.Process?;
    s.(sweep := Some(w.(retry := w.retry[1..], delivering := if skip then None else Some(id))))
  }

  function SweepNext(s: State, w: Sweep, e: Event): State {
    match e
    case SweepResolve(current) => if w.current.None? then s.(sweep := Some(w.(current := Some(current)))) else s
    case SweepClassify => if w.current.Some? && w.delivering.None? && w.todo != [] then ClassifyNext(s, w) else s
    case SweepRetry(watched) =>
      if w.current.Some? && w.delivering.None? && w.todo == [] && w.retry != [] then RetryNext(s, w, watched) else s
    case SweepDeliver(at, throws) =>
      if w.delivering.Some?
      then s.(books := Deliver(s.books, w.delivering.value, at, throws), sweep := Some(w.(delivering := None)))
      else s
    case SweepEnd =>
      if w.current.Some? && w.delivering.None? && w.todo == [] && w.retry == []
      then s.(books := s.books.(rows := Pruned(s.books.rows, w.now - WORK_ROW_RETENTION_MS)), sweep := None)
      else s
    case _ => s
  }

  function Next(s: State, e: Event): State {
    var b := s.books;
    match e
    case Register(id, row) =>
      if id in b.rows || (id !in b.known && row.terminal.None?)
      then s.(books := b.(rows := Registered(b.rows, id, row), known := b.known + {id}))
      else s
    case StampAlive(id, at) => s.(books := b.(rows := StampedAlive(b.rows, id, at)))
    case Abandon(id) => if Closes(b.rows, id) then s.(books := b.(rows := b.rows - {id})) else s
    case PushArrives(id) =>
      if Closes(b.rows, id) && b.rows[id].kind.Process? then s.(pushes := s.pushes + {id}) else s
    case PushCompletes(id, now, throws) =>
      if id in s.pushes then s.(books := CompletePush(b, id, now, throws)) else s
    case Finish(id, terminal) => s.(books := FinishRun(b, id, terminal))
    case SweepStart(now, todo, retry) => StartSweep(s, now, todo, retry)
    case Crash => State(b, None, {})
    case _ => if s.sweep.Some? then SweepNext(s, s.sweep.value, e) else s
  }

  function Run(s: State, events: seq<Event>): State {
    if events == [] then s else Next(Run(s, events[..|events| - 1]), events[|events| - 1])
  }

  const EMPTY := State(Books(map[], {}, [], [], {}), None, {})

  // ---------- the invariant ----------

  predicate IsOwed(rows: Ledger, id: Id) {
    id in rows && Owed(rows[id])
  }

  /** A closed id is exactly one of: owed in the ledger, told to the model, or settled silently. */
  predicate Settled(b: Books, id: Id) {
    if id !in b.closings then id !in b.told && id !in b.silent
    else if IsOwed(b.rows, id) then id !in b.told && id !in b.silent
    else id in b.told <==> id !in b.silent
  }

  predicate Accounted(b: Books, id: Id) {
    && (id in b.rows ==> id in b.known && (Open(b.rows[id]) <==> id !in b.closings))
    && (id in b.rows && Open(b.rows[id]) ==> b.rows[id].deliveredAt.None?)
    && (id in b.closings ==> id in b.known)
    && Settled(b, id)
  }

  ghost predicate BooksOk(b: Books) {
    NoDuplicates(b.closings) && NoDuplicates(b.told) && forall id :: Accounted(b, id)
  }

  /** Every delivery the sweep may still make is owed right now, and planned once. */
  predicate SweepOk(rows: Ledger, w: Sweep) {
    && (forall id :: id in w.retry ==> IsOwed(rows, id))
    && NoDuplicates(w.retry)
    && (w.delivering.Some? ==> IsOwed(rows, w.delivering.value) && w.delivering.value !in w.retry)
  }

  ghost predicate Inv(s: State) {
    BooksOk(s.books) && (s.sweep.Some? ==> SweepOk(s.books.rows, s.sweep.value))
  }

  // ---------- each change keeps the books ----------

  lemma {:induction false} AppendFresh<T>(s: seq<T>, x: T)
    requires NoDuplicates(s) && x !in s
    ensures NoDuplicates(s + [x])
  {
  }

  lemma {:induction false} CloseKeepsBooks(b: Books, id: Id, terminal: Terminal)
    requires BooksOk(b)
    ensures BooksOk(Close(b, id, terminal))
  {
    assert Accounted(b, id);
    if Closes(b.rows, id) {
      AppendFresh(b.closings, id);
      forall other ensures Accounted(Close(b, id, terminal), other) {
        assert Accounted(b, other);
      }
    }
  }

  lemma {:induction false} DeliverKeepsBooks(b: Books, id: Id, at: int, throws: bool)
    requires BooksOk(b) && IsOwed(b.rows, id)
    ensures BooksOk(Deliver(b, id, at, throws))
  {
    assert Accounted(b, id);
    AppendFresh(b.told, id);
    if !throws {
      forall other ensures Accounted(Deliver(b, id, at, throws), other) {
        assert Accounted(b, other);
      }
    }
  }

  lemma {:induction false} FinishKeepsBooks(b: Books, id: Id, terminal: Terminal)
    requires BooksOk(b)
    ensures BooksOk(FinishRun(b, id, terminal))
  {
    assert Accounted(b, id);
    if Closes(b.rows, id) {
      AppendFresh(b.closings, id);
      forall other ensures Accounted(FinishRun(b, id, terminal), other) {
        assert Accounted(b, other);
      }
    }
  }

  lemma {:induction false} PushKeepsBooks(b: Books, id: Id, now: int, throws: bool)
    requires BooksOk(b)
    ensures BooksOk(CompletePush(b, id, now, throws))
  {
    if Closes(b.rows, id) {
      var terminal := Terminal(Exited, ProcessExit, now);
      assert Accounted(b, id);
      CloseKeepsBooks(b, id, terminal);
      DeliverKeepsBooks(Close(b, id, terminal), id, now, throws);
    }
  }

  lemma {:induction false} RegisterKeepsBooks(b: Books, id: Id, row: WorkRow)
    requires BooksOk(b) && (id in b.rows || (id !in b.known && row.terminal.None?))
    ensures BooksOk(b.(rows := Registered(b.rows, id, row), known := b.known + {id}))
  {
    forall other ensures Accounted(b.(rows := Registered(b.rows, id, row), known := b.known + {id}), other) {
      assert Accounted(b, other);
    }
  }

  lemma {:induction false} StampKeepsBooks(b: Books, id: Id, at: int)
    requires BooksOk(b)
    ensures BooksOk(b.(rows := StampedAlive(b.rows, id, at)))
  {
    forall other ensures Accounted(b.(rows := StampedAlive(b.rows, id, at)), other) {
      assert Accounted(b, other);
    }
  }

  lemma {:induction false} AbandonKeepsBooks(b: Books, id: Id)
    requires BooksOk(b) && Closes(b.rows, id)
    ensures BooksOk(b.(rows := b.rows - {id}))
  {
    forall other ensures Accounted(b.(rows := b.rows - {id}), other) {
      assert Accounted(b, other);
    }
  }

  lemma {:induction false} PruneKeepsBooks(b: Books, before: int)
    requires BooksOk(b)
    ensures BooksOk(b.(rows := Pruned(b.rows, before)))
  {
    forall id ensures Accounted(b.(rows := Pruned(b.rows, before)), id) {
      assert Accounted(b, id);
    }
  }

  // ---------- each change keeps the sweep's plan ----------

  /** Nothing outside the sweep discharges a row that was owed before. */
  predicate KeepsOwed(before: Ledger, after: Ledger) {
    forall id :: id in before && Owed(before[id]) ==> IsOwed(after, id)
  }

  lemma {:induction false} OutsideKeepsOwed(s: State, e: Event)
    requires !e.SweepDeliver?
    ensures KeepsOwed(s.books.rows, Next(s, e).books.rows)
  {
  }

  lemma {:induction false} PlanSurvives(before: Ledger, after: Ledger, w: Sweep)
    requires SweepOk(before, w) && KeepsOwed(before, after)
    ensures SweepOk(after, w)
  {
  }

  lemma {:induction false} DeliverKeepsPlan(b: Books, w: Sweep, at: int, throws: bool)
    requires SweepOk(b.rows, w) && w.delivering.Some?
    ensures SweepOk(Deliver(b, w.delivering.value, at, throws).rows, w.(delivering := None))
  {
  }

  lemma {:induction false} PopKeepsPlan(rows: Ledger, w: Sweep)
    requires SweepOk(rows, w) && w.retry != [] && w.delivering.None?
    ensures SweepOk(rows, w.(retry := w.retry[1..], delivering := Some(w.retry[0])))
    ensures SweepOk(rows, w.(retry := w.retry[1..], delivering := None))
  {
    assert forall id :: id in w.retry[1..] ==> id in w.retry;
  }

  lemma {:induction false} ClassifyKeepsPlan(s: State, w: Sweep)
    requires Inv(s) && s.sweep == Some(w) && w.current.Some? && w.todo != [] && w.delivering.None?
    ensures ClassifyNext(s, w).sweep.Some? && SweepOk(ClassifyNext(s, w).books.rows, ClassifyNext(s, w).sweep.value)
  {
    assert Accounted(s.books, w.todo[0]);
  }

  lemma {:induction false} SweepStepKeepsInv(s: State, w: Sweep, e: Event)
    requires Inv(s) && s.sweep == Some(w)
    ensures Inv(SweepNext(s, w, e))
  {
    match e
    case SweepClassify =>
      if w.current.Some? && w.delivering.None? && w.todo != [] {
        ClassifyKeepsPlan(s, w);
        ClassifyKeepsBooks(s, w);
      }
    case SweepRetry(watched) =>
      if w.delivering.None? && w.retry != [] {
        PopKeepsPlan(s.books.rows, w);
      }
    case SweepDeliver(at, throws) =>
      if w.delivering.Some? {
        DeliverKeepsBooks(s.books, w.delivering.value, at, throws);
        DeliverKeepsPlan(s.books, w, at, throws);
      }
    case SweepEnd =>
      PruneKeepsBooks(s.books, w.now - WORK_ROW_RETENTION_MS);
    case _ =>
  }

  lemma {:induction false} ClassifyKeepsBooks(s: State, w: Sweep)
    requires Inv(s) && w.current.Some? && w.todo != []
    ensures BooksOk(ClassifyNext(s, w).books)
  {
    forall terminal ensures BooksOk(Close(s.books, w.todo[0], terminal)) {
      CloseKeepsBooks(s.books, w.todo[0], terminal);
    }
  }

  lemma {:induction false} StepKeepsBooks(s: State, e: Event)
    requires Inv(s)
    ensures BooksOk(Next(s, e).books)
  {
    var b := s.books;
    match e
    case Register(id, row) =>
      if id in b.rows || (id !in b.known && row.terminal.None?) {
        RegisterKeepsBooks(b, id, row);
      }
    case StampAlive(id, at) => StampKeepsBooks(b, id, at);
    case Abandon(id) =>
      if Closes(b.rows, id) {
        AbandonKeepsBooks(b, id);
      }
    case PushArrives(id) =>
    case PushCompletes(id, now, throws) => PushKeepsBooks(b, id, now, throws);
    case Finish(id, terminal) => FinishKeepsBooks(b, id, terminal);
    case SweepStart(now, todo, retry) =>
    case Crash =>
    case _ =>
      if s.sweep.Some? {
        SweepStepKeepsInv(s, s.sweep.value, e);
      }
  }

  predicate IsSweepStep(e: Event) {
    e.SweepResolve? || e.SweepClassify? || e.SweepRetry? || e.SweepDeliver? || e.SweepEnd?
  }

  lemma {:induction false} StepKeepsInv(s: State, e: Event)
    requires Inv(s)
    ensures Inv(Next(s, e))
  {
    StepKeepsBooks(s, e);
    if IsSweepStep(e) {
      if s.sweep.Some? {
        SweepStepKeepsInv(s, s.sweep.value, e);
      }
    } else if s.sweep.Some? {
      OutsideKeepsOwed(s, e);
      PlanSurvives(s.books.rows, Next(s, e).books.rows, s.sweep.value);
    }
  }

  lemma {:induction false} RunKeepsInv(events: seq<Event>)
    ensures Inv(Run(EMPTY, events))
  {
    if events != [] {
      RunKeepsInv(events[..|events| - 1]);
      StepKeepsInv(Run(EMPTY, events[..|events| - 1]), events[|events| - 1]);
    }
  }

  // ---------- main theorems ----------

  /** Over every run a row's terminal is written once and its completion enqueued at most once. */
  lemma {:induction false} ToldAtMostOnce(events: seq<Event>)
    ensures NoDuplicates(Run(EMPTY, events).books.closings)
    ensures NoDuplicates(Run(EMPTY, events).books.told)
  {
    RunKeepsInv(events);
  }

  /** However deliveries throw, sweeps crash and writers race, a closed row is exactly one of: told to
      the model once, settled by a writer that owed nothing, or still in the ledger as owed. */
  lemma {:induction false} ClosedIsToldOrOwed(events: seq<Event>, id: Id)
    requires id in Run(EMPTY, events).books.closings
    ensures var b := Run(EMPTY, events).books;
            && (id in b.told ==> id !in b.silent && !IsOwed(b.rows, id))
            && (id in b.silent ==> !IsOwed(b.rows, id))
            && (id in b.told || id in b.silent || id in OwedIds(b.rows))
  {
    RunKeepsInv(events);
    assert Accounted(Run(EMPTY, events).books, id);
  }

  /** An open row has never been reported. */
  lemma {:induction false} OpenIsUntold(events: seq<Event>, id: Id)
    requires id in OpenIds(Run(EMPTY, events).books.rows)
    ensures id !in Run(EMPTY, events).books.told && id !in Run(EMPTY, events).books.closings
  {
    RunKeepsInv(events);
    assert Accounted(Run(EMPTY, events).books, id);
  }

  /** A pushed completion, once it has arrived, closes an open row as a process that exited, then tells the
      model and stamps the row unless the delivery throws. */
  lemma {:induction false} PushCloses(s: State, id: Id, now: int, throws: bool)
    requires id in s.books.rows && s.books.rows[id].terminal.None?
    requires id in s.pushes || s.books.rows[id].kind.Process?
    ensures var was, t := s.books, Next(Next(s, PushArrives(id)), PushCompletes(id, now, throws)).books;
            && t.rows.Keys == was.rows.Keys && OthersSame(was.rows, t.rows, id)
            && t.rows[id].terminal == Some(Terminal(Exited, ProcessExit, now))
            && t.told == (if throws then was.told else was.told + [id])
            && (was.rows[id].deliveredAt.None? ==> t.rows[id].deliveredAt == if throws then None else Some(now))
  {
  }

  /** A finishing run closes an open row with its own terminal and owes the model nothing. */
  lemma {:induction false} FinishCloses(s: State, id: Id, terminal: Terminal)
    requires id in s.books.rows && s.books.rows[id].terminal.None? && s.books.rows[id].deliveredAt.None?
    ensures var was, t := s.books, Next(s, Finish(id, terminal)).books;
            && t.rows.Keys == was.rows.Keys && OthersSame(was.rows, t.rows, id)
            && t.rows[id].terminal == Some(terminal) && t.rows[id].deliveredAt == Some(terminal.at)
            && t.told == was.told
  {
  }

  /** Only closing a row silently, or delivering it, takes it off the owed list; in particular a run
      finishing after another writer closed it changes nothing. */
  lemma {:induction false} FinishNeverClearsOwed(s: State, e: Event, id: Id)
    requires e.Finish? && IsOwed(s.books.rows, id)
    ensures Next(s, e).books.rows[id] == s.books.rows[id] && id in Next(s, e).books.rows
    ensures e.id == id ==> Next(s, e) == s
  {
    assert e.id == id ==> !Closes(s.books.rows, id);
  }

  predicate Fixed(b: Books, id: Id, terminal: Terminal) {
    id in b.known && (id in b.rows ==> b.rows[id].terminal == Some(terminal))
  }

  lemma {:induction false} StepKeepsTerminal(s: State, e: Event, id: Id, terminal: Terminal)
    requires Fixed(s.books, id, terminal)
    ensures Fixed(Next(s, e).books, id, terminal)
  {
  }

  /** Once written, a terminal never changes for as long as the row exists. */
  lemma {:induction false} TerminalNeverChanges(s: State, events: seq<Event>, id: Id)
    requires Inv(s) && id in s.books.rows && s.books.rows[id].terminal.Some?
    ensures Fixed(Run(s, events).books, id, s.books.rows[id].terminal.value)
    ensures id in Run(s, events).books.rows ==> Run(s, events).books.rows[id].terminal == s.books.rows[id].terminal
  {
    assert Accounted(s.books, id);
    if events != [] {
      TerminalNeverChanges(s, events[..|events| - 1], id);
      StepKeepsTerminal(Run(s, events[..|events| - 1]), events[|events| - 1], id, s.books.rows[id].terminal.value);
    }
  }
}
