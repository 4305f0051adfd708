/**
 Archiving a thread (src/agent/archive-thread.ts:40-122, src/db/repositories/archived-messages.ts:24-35,
 src/db/repositories/archived-compactions.ts): durable writes before an irreversible destroy, with a
 crash possible after any of them and any number of retries.
 */
module Archive {
  import opened Wrappers

  const MESSAGE_CHUNK := 25
  const COMPACTION_CHUNK := 12

  type Message = string
  type Compaction = string

  /** What survives a crash: the registry row, the archive tables and the thread's own object. */
  datatype Disk = Disk(
    archivedAt: bool,
    skipped: bool,
    messages: seq<Message>,          // archived message rows, in seq order
    compactions: seq<Compaction>,    // archived compaction rows
    alive: bool,                     // the object has not been destroyed
    history: seq<Message>,           // the raw transcript the object holds, or held when destroyed
    overlays: seq<Compaction>        // its compactions
  )

  /** Where the running call is. */
  datatype Call =
    | Idle
    | Finishing                                                      // recovery: only the flag is left
    | ClearMessages(ms: seq<Message>, cs: seq<Compaction>)
    | InsertMessages(ms: seq<Message>, cs: seq<Compaction>, done: nat)
    | ClearCompactions(ms: seq<Message>, cs: seq<Compaction>)
    | InsertCompactions(ms: seq<Message>, cs: seq<Compaction>, done: nat)
    | SetFlag(ms: seq<Message>, cs: seq<Compaction>)
    | Destroy(ms: seq<Message>, cs: seq<Compaction>)

  datatype State = State(disk: Disk, call: Call)

  datatype Event =
    | Append(m: Message)
    | Overlay(c: Compaction)
    | Begin(activeTurn: bool)
    | Step
    | DestroyFails
    | Crash

  function Fresh(history: seq<Message>, overlays: seq<Compaction>): State {
    State(Disk(false, false, [], [], true, history, overlays), Idle)
  }

  /** A destroyed object exports nothing. */
  function Export(d: Disk): seq<Message> {
    if d.alive then d.history else []
  }

  function Start(d: Disk, activeTurn: bool): State {
    if d.archivedAt then State(d, Idle)
    else if d.messages != [] then State(d, Finishing)
    else if activeTurn then State(d, Idle)
    else if Export(d) == [] then State(d.(skipped := true), Idle)
    else State(d, ClearMessages(Export(d), d.overlays))
  }

  /** The next durable write of the running call. */
  function Write(s: State): State {
    var d := s.disk;
    match s.call
    case Idle => s
    case Finishing => State(d.(archivedAt := true), Idle)
    case ClearMessages(ms, cs) => State(d.(messages := []), InsertMessages(ms, cs, 0))
    case InsertMessages(ms, cs, done) =>
      if done >= |ms| then State(d, ClearCompactions(ms, cs))
      else
        var next := Min(done + MESSAGE_CHUNK, |ms|);
        State(d.(messages := d.messages + ms[done..next]), InsertMessages(ms, cs, next))
    case ClearCompactions(ms, cs) => State(d.(compactions := []), InsertCompactions(ms, cs, 0))
    case InsertCompactions(ms, cs, done) =>
      if done >= |cs| then State(d, SetFlag(ms, cs))
      else
        var next := Min(done + COMPACTION_CHUNK, |cs|);
        State(d.(compactions := d.compactions + cs[done..next]), InsertCompactions(ms, cs, next))
    case SetFlag(ms, cs) => State(d.(archivedAt := true), Destroy(ms, cs))
    case Destroy(ms, cs) => State(d.(alive := false), Idle)
  }

  /** Calls for one thread do not overlap, and nothing is appended while one runs or after archiving. */
  function Next(s: State, e: Event): State {
    match e
    case Append(m) =>
      if s.call.Idle? && !s.disk.archivedAt && s.disk.alive
      then s.(disk := s.disk.(history := s.disk.history + [m], skipped := false)) else s
    case Overlay(c) =>
      if s.call.Idle? && !s.disk.archivedAt && s.disk.alive
      then s.(disk := s.disk.(overlays := s.disk.overlays + [c])) else s
    case Begin(activeTurn) => if s.call.Idle? then Start(s.disk, activeTurn) else s
    case Step => Write(s)
    case DestroyFails => if s.call.Destroy? then s.(call := Idle) else s
    case Crash => s.(call := Idle)
  }

  function Run(s: State, events: seq<Event>): State {
    if events == [] then s else Next(Run(s, events[..|events| - 1]), events[|events| - 1])
  }

  // ---------- destroyed means saved ----------

  /** A call under way carries the whole live transcript, and has written what its place says. */
  predicate CallOk(d: Disk, c: Call) {
    match c
    case Idle => true
    case Finishing => true
    case ClearMessages(ms, cs) => Carries(d, ms, cs)
    case InsertMessages(ms, cs, done) => Carries(d, ms, cs) && done <= |ms| && d.messages == ms[..done]
    case ClearCompactions(ms, cs) => Carries(d, ms, cs) && d.messages == ms
    case InsertCompactions(ms, cs, done) =>
      Carries(d, ms, cs) && d.messages == ms && done <= |cs| && d.compactions == cs[..done]
    case SetFlag(ms, cs) => Carries(d, ms, cs) && d.messages == ms && d.compactions == cs
    case Destroy(ms, cs) => Carries(d, ms, cs) && d.messages == ms && d.compactions == cs && d.archivedAt
  }

  predicate Carries(d: Disk, ms: seq<Message>, cs: seq<Compaction>) {
    d.alive && ms != [] && ms == d.history && cs == d.overlays
  }

  predicate Saved(d: Disk) {
    d.archivedAt && d.history != [] && d.messages == d.history && d.compactions == d.overlays
  }

  predicate Inv(s: State) {
    CallOk(s.disk, s.call) && (!s.disk.alive ==> Saved(s.disk) && s.call.Idle?)
  }

  lemma {:induction false} TakeMore<T>(xs: seq<T>, a: nat, b: nat)
    requires a <= b <= |xs|
    ensures xs[..a] + xs[a..b] == xs[..b]
  {
  }

  lemma {:induction false} WriteKeepsInv(s: State)
    requires Inv(s)
    ensures Inv(Write(s))
  {
    match s.call
    case InsertMessages(ms, cs, done) =>
      if done < |ms| {
        TakeMore(ms, done, Min(done + MESSAGE_CHUNK, |ms|));
      }
      assert ms[..|ms|] == ms;
    case InsertCompactions(ms, cs, done) =>
      if done < |cs| {
        TakeMore(cs, done, Min(done + COMPACTION_CHUNK, |cs|));
      }
      assert cs[..|cs|] == cs;
    case _ =>
  }

  lemma {:induction false} NextKeepsInv(s: State, e: Event)
    requires Inv(s)
    ensures Inv(Next(s, e))
  {
    if e.Step? {
      WriteKeepsInv(s);
    }
  }

  lemma {:induction false} RunKeepsInv(s: State, events: seq<Event>)
    requires Inv(s)
    ensures Inv(Run(s, events))
  {
    if events != [] {
      RunKeepsInv(s, events[..|events| - 1]);
      NextKeepsInv(Run(s, events[..|events| - 1]), events[|events| - 1]);
    }
  }

  /** Whatever crashes and retries, an object is destroyed only when its thread is flagged archived and
      its full, non-empty transcript and its compactions are stored. */
  lemma {:induction false} DestroyedIsSaved(history: seq<Message>, overlays: seq<Compaction>, events: seq<Event>)
    requires !Run(Fresh(history, overlays), events).disk.alive
    ensures Saved(Run(Fresh(history, overlays), events).disk)
  {
    RunKeepsInv(Fresh(history, overlays), events);
  }

  /** Only the last step of an uninterrupted call destroys; the recovery path never does. */
  lemma {:induction false} OnlyFullCallsDestroy(s: State, e: Event)
    requires s.disk.alive && !Next(s, e).disk.alive
    ensures e.Step? && s.call.Destroy?
  {
  }

  // ---------- what recovery can finish ----------

  predicate NoAppends(events: seq<Event>) {
    forall i :: 0 <= i < |events| ==> !events[i].Append? && !events[i].Overlay?
  }

  /** Stored rows are always a whole number of chunks of the one transcript, or all of it. */
  predicate Chunked(stored: seq<Message>, history: seq<Message>) {
    stored == [] || stored == history || (MESSAGE_CHUNK <= |stored| < |history| && stored == history[..|stored|])
  }

  predicate RecoveryInv(s: State, history: seq<Message>, overlays: seq<Compaction>) {
    && Inv(s) && s.disk.history == history && s.disk.overlays == overlays
    && Chunked(s.disk.messages, history)
    && (s.disk.archivedAt ==> s.disk.messages != [])
    && (s.call.ClearMessages? || s.call.InsertMessages? ==> !s.disk.archivedAt)
    && (s.call.Finishing? ==> s.disk.messages != [])
    && (s.call.InsertMessages? ==> s.call.done == 0 || s.call.done == |history| || MESSAGE_CHUNK <= s.call.done)
  }

  lemma {:induction false} RecoveryStep(s: State, e: Event, history: seq<Message>, overlays: seq<Compaction>)
    requires RecoveryInv(s, history, overlays) && !e.Append? && !e.Overlay?
    ensures RecoveryInv(Next(s, e), history, overlays)
  {
    NextKeepsInv(s, e);
    assert history[..|history|] == history;
    hide Inv;
  }

  lemma {:induction false} RecoveryRun(history: seq<Message>, overlays: seq<Compaction>, events: seq<Event>)
    requires NoAppends(events)
    ensures RecoveryInv(Run(Fresh(history, overlays), events), history, overlays)
  {
    if events != [] {
      var front := events[..|events| - 1];
      RecoveryRun(history, overlays, front);
      RecoveryStep(Run(Fresh(history, overlays), front), events[|events| - 1], history, overlays);
    }
  }

  /** What is stored is a beginning of the whole, ending where an insert does. */
  predicate Inserted<T(==)>(stored: seq<T>, all: seq<T>, chunk: nat)
    requires chunk > 0
  {
    stored <= all && (stored == all || |stored| % chunk == 0)
  }

  predicate StoredOk(d: Disk, history: seq<Message>, overlays: seq<Compaction>) {
    d.history == history && d.overlays == overlays
    && Inserted(d.messages, history, 25) && Inserted(d.compactions, overlays, 12)
  }

  lemma {:induction false} OneMoreInsert<T>(all: seq<T>, done: nat, chunk: nat)
    requires done < |all| && chunk in {12, 25} && Inserted(all[..done], all, chunk)
    ensures var next := Min(done + chunk, |all|);
            all[..done] + all[done..next] == all[..next] && Inserted(all[..next], all, chunk)
  {
    var next := Min(done + chunk, |all|);
    TakeMore(all, done, next);
    if chunk == 12 {
      assert (done + 12) % 12 == done % 12;
    } else {
      assert (done + 25) % 25 == done % 25;
    }
  }

  lemma {:induction false} StepStores(s: State, e: Event, history: seq<Message>, overlays: seq<Compaction>)
    requires Inv(s) && StoredOk(s.disk, history, overlays) && !e.Append? && !e.Overlay?
    ensures StoredOk(Next(s, e).disk, history, overlays)
  {
    hide Inserted;
    if e.Step? && s.call.InsertMessages? && s.call.done < |s.call.ms| {
      OneMoreInsert(history, s.call.done, 25);
    } else if e.Step? && s.call.InsertCompactions? && s.call.done < |s.call.cs| {
      OneMoreInsert(overlays, s.call.done, 12);
    } else {
      NoneInserted(history, 25);
      NoneInserted(overlays, 12);
    }
  }

  lemma {:induction false} NoneInserted<T>(all: seq<T>, chunk: nat)
    requires chunk > 0
    ensures Inserted([], all, chunk)
  {
  }

  /** Whatever crashes, what is stored ends where an insert of 25 messages or 12 compactions does. */
  lemma {:induction false} StoredInWholeInserts(history: seq<Message>, overlays: seq<Compaction>, events: seq<Event>)
    requires NoAppends(events)
    ensures var d := Run(Fresh(history, overlays), events).disk;
            && d.messages <= history && (d.messages == history || |d.messages| % 25 == 0)
            && d.compactions <= overlays && (d.compactions == overlays || |d.compactions| % 12 == 0)
    ensures StoredOk(Run(Fresh(history, overlays), events).disk, history, overlays)
  {
    NoneInserted(history, 25);
    NoneInserted(overlays, 12);
    if events != [] {
      var front := events[..|events| - 1];
      StoredInWholeInserts(history, overlays, front);
      RunKeepsInv(Fresh(history, overlays), front);
      StepStores(Run(Fresh(history, overlays), front), events[|events| - 1], history, overlays);
    }
  }

  /** Every archived outcome of a run holds the whole transcript. */
  predicate ArchivesWhole(history: seq<Message>, overlays: seq<Compaction>, events: seq<Event>) {
    NoAppends(events) && Run(Fresh(history, overlays), events).disk.archivedAt
    ==> Run(Fresh(history, overlays), events).disk.messages == history
  }

  predicate ArchivesCompactions(history: seq<Message>, overlays: seq<Compaction>, events: seq<Event>) {
    NoAppends(events) && Run(Fresh(history, overlays), events).disk.archivedAt
    ==> Run(Fresh(history, overlays), events).disk.compactions == overlays
  }

  lemma {:induction false} RunSnoc(s: State, events: seq<Event>, e: Event)
    ensures Run(s, events + [e]) == Next(Run(s, events), e)
  {
    assert (events + [e])[..|events|] == events;
  }

  lemma {:induction false} RunTwo(s: State, a: Event, b: Event)
    ensures Run(s, [a, b]) == Next(Next(s, a), b)
  {
    RunSnoc(s, [], a);
    RunSnoc(s, [a], b);
    assert [] + [a] == [a] && [a] + [b] == [a, b];
  }

  lemma {:induction false} RunConcat(s: State, a: seq<Event>, b: seq<Event>)
    ensures Run(s, a + b) == Run(Run(s, a), b)
  {
    if b == [] {
      assert a + b == a;
    } else {
      var front := b[..|b| - 1];
      RunConcat(s, a, front);
      RunSnoc(s, a + front, b[|b| - 1]);
      assert a + front + [b[|b| - 1]] == a + b;
    }
  }

  /** The interrupted call: begin, clear, one chunk, crash; then a retry finishes the flag. */
  function TornRun(): seq<Event> {
    [Begin(false), Step] + [Step, Crash] + [Begin(false), Step]
  }

  lemma {:induction false} TornRunStores(history: seq<Message>, overlays: seq<Compaction>)
    requires history != []
    ensures var d := Run(Fresh(history, overlays), TornRun()).disk;
            d.archivedAt && d.messages == history[..Min(MESSAGE_CHUNK, |history|)] && d.compactions == []
  {
    var s := Fresh(history, overlays);
    RunConcat(s, [Begin(false), Step] + [Step, Crash], [Begin(false), Step]);
    RunConcat(s, [Begin(false), Step], [Step, Crash]);
    RunTwo(s, Begin(false), Step);
    var s2 := Next(Next(s, Begin(false)), Step);
    assert s2 == State(s.disk, InsertMessages(history, overlays, 0));
    RunTwo(s2, Step, Crash);
    var s4 := Next(Next(s2, Step), Crash);
    assert s4.disk.messages == history[..Min(MESSAGE_CHUNK, |history|)];
    RunTwo(s4, Begin(false), Step);
  }

  lemma {:induction false} SmallIsWhole(stored: seq<Message>, history: seq<Message>)
    requires Chunked(stored, history) && stored != [] && |history| <= MESSAGE_CHUNK
    ensures stored == history
  {
  }

  /** A thread can end up archived with part of its transcript exactly when the transcript needs more
      than one insert: recovery takes any stored row for a finished snapshot. */
  lemma {:induction false} RecoveryWholeExactly(history: seq<Message>, overlays: seq<Compaction>)
    ensures (forall events :: ArchivesWhole(history, overlays, events)) <==> |history| <= 25
  {
    if |history| <= MESSAGE_CHUNK {
      forall events ensures ArchivesWhole(history, overlays, events) {
        if NoAppends(events) {
          RecoveryRun(history, overlays, events);
          var d := Run(Fresh(history, overlays), events).disk;
          if d.archivedAt {
            SmallIsWhole(d.messages, history);
          }
        }
      }
    } else {
      TornRunStores(history, overlays);
      assert !ArchivesWhole(history, overlays, TornRun());
    }
  }

  /** And without some of its compactions exactly when it has messages and compactions at all. */
  lemma {:induction false} RecoveryCompactionsExactly(history: seq<Message>, overlays: seq<Compaction>)
    ensures (forall events :: ArchivesCompactions(history, overlays, events)) <==> history == [] || overlays == []
  {
    if history == [] || overlays == [] {
      forall events ensures ArchivesCompactions(history, overlays, events) {
        if NoAppends(events) {
          NothingToLose(history, overlays, events);
        }
      }
    } else {
      TornRunStores(history, overlays);
      assert !ArchivesCompactions(history, overlays, TornRun());
    }
  }

  // ---------- what a torn recovery leaves ----------

  /** With the flag set, no call is under way except one about to destroy. */
  predicate FlagOk(s: State) {
    s.disk.archivedAt ==> s.call.Idle? || s.call.Destroy?
  }

  lemma {:induction false} NextKeepsFlag(s: State, e: Event)
    requires FlagOk(s)
    ensures FlagOk(Next(s, e))
  {
  }

  lemma {:induction false} RunKeepsFlag(s: State, events: seq<Event>)
    requires FlagOk(s)
    ensures FlagOk(Run(s, events))
  {
    if events != [] {
      RunKeepsFlag(s, events[..|events| - 1]);
      NextKeepsFlag(Run(s, events[..|events| - 1]), events[|events| - 1]);
    }
  }

  /** Once flagged, a thread at rest never changes again. */
  lemma {:induction false} FlaggedStays(s: State, events: seq<Event>)
    requires s.disk.archivedAt && s.call.Idle?
    ensures Run(s, events) == s
  {
    if events != [] {
      FlaggedStays(s, events[..|events| - 1]);
    }
  }

  predicate DestroyedBy(s: State, events: seq<Event>) {
    !Run(s, events).disk.alive
  }

  lemma {:induction false} DestroyStep(s: State)
    requires s.call.Destroy?
    ensures DestroyedBy(s, [Step])
  {
    RunSnoc(s, [], Step);
    assert [] + [Step] == [Step];
  }

  /** A flagged thread that is still there can be destroyed only by the full call that is about to. */
  lemma {:induction false} FlaggedDestroyedExactly(history: seq<Message>, overlays: seq<Compaction>, events: seq<Event>)
    requires var s := Run(Fresh(history, overlays), events); s.disk.archivedAt && s.disk.alive
    ensures var s := Run(Fresh(history, overlays), events);
            (exists more :: DestroyedBy(s, more)) <==> s.call.Destroy?
  {
    hide Run, Next;
    var s := Run(Fresh(history, overlays), events);
    RunKeepsFlag(Fresh(history, overlays), events);
    if s.call.Destroy? {
      DestroyStep(s);
    } else {
      forall more ensures !DestroyedBy(s, more) {
        FlaggedStays(s, more);
      }
    }
  }

  /** A thread flagged over part of its transcript or without its compactions keeps its object, and
      everything in it, for ever. */
  lemma {:induction false} TornKeepsObject(
    history: seq<Message>, overlays: seq<Compaction>, events: seq<Event>, more: seq<Event>)
    requires var s := Run(Fresh(history, overlays), events); s.disk.archivedAt && !Saved(s.disk)
    ensures var s := Run(Fresh(history, overlays), events); s.disk.alive && Run(s, more).disk == s.disk
  {
    var s := Run(Fresh(history, overlays), events);
    RunKeepsInv(Fresh(history, overlays), events);
    RunKeepsFlag(Fresh(history, overlays), events);
    assert !s.call.Destroy?;
    FlaggedStays(s, more);
  }

  predicate Bare(s: State, history: seq<Message>, overlays: seq<Compaction>) {
    && RecoveryInv(s, history, overlays) && s.disk.compactions == []
  }

  lemma {:induction false} NothingToLose(history: seq<Message>, overlays: seq<Compaction>, events: seq<Event>)
    requires NoAppends(events) && (history == [] || overlays == [])
    ensures Bare(Run(Fresh(history, overlays), events), history, overlays)
    ensures history == [] ==> !Run(Fresh(history, overlays), events).disk.archivedAt
  {
    if events != [] {
      var front := events[..|events| - 1];
      NothingToLose(history, overlays, front);
      NothingToLoseStep(Run(Fresh(history, overlays), front), events[|events| - 1], history, overlays);
    }
  }

  lemma {:induction false} NothingToLoseStep(s: State, e: Event, history: seq<Message>, overlays: seq<Compaction>)
    requires Bare(s, history, overlays) && (history == [] || overlays == []) && !e.Append? && !e.Overlay?
    requires history == [] ==> !s.disk.archivedAt
    ensures Bare(Next(s, e), history, overlays)
    ensures history == [] ==> !Next(s, e).disk.archivedAt
  {
    RecoveryStep(s, e, history, overlays);
  }

  // ---------- the uninterrupted call ----------

  datatype Outcome = AlreadyArchived | Archived | ActiveTurn | EmptySnapshot

  function OutcomeOf(d: Disk, activeTurn: bool): Outcome {
    if d.archivedAt then AlreadyArchived
    else if d.messages != [] then Archived
    else if activeTurn then ActiveTurn
    else if Export(d) == [] then EmptySnapshot
    else Archived
  }

  /** What one call that runs to its end leaves behind. */
  function AfterCall(d: Disk, activeTurn: bool): Disk {
    if d.archivedAt then d
    else if d.messages != [] then d.(archivedAt := true)
    else if activeTurn then d
    else if Export(d) == [] then d.(skipped := true)
    else d.(messages := Export(d), compactions := d.overlays, archivedAt := true, alive := false)
  }

  /** The outcome by what is stored and live before the call. A thread counts as archived when its flag is set
      by the end of it, as empty when there is nothing to export, and as busy before either is looked at. */
  lemma {:induction false} OutcomeByState(d: Disk, activeTurn: bool)
    ensures OutcomeOf(d, activeTurn) == AlreadyArchived <==> d.archivedAt
    ensures OutcomeOf(d, activeTurn) == Archived <==> !d.archivedAt && AfterCall(d, activeTurn).archivedAt
    ensures OutcomeOf(d, activeTurn) == ActiveTurn <==> !d.archivedAt && d.messages == [] && activeTurn
    ensures OutcomeOf(d, activeTurn) == EmptySnapshot
            <==> !d.archivedAt && d.messages == [] && !activeTurn && (d.alive ==> d.history == [])
  {
  }

  /** What each outcome leaves: nothing changes for a thread archived before or busy, an empty one is stamped,
      and archiving either only sets the flag over what was stored, or stores everything and destroys. */
  lemma {:induction false} OutcomeLeaves(d: Disk, activeTurn: bool)
    ensures var t, outcome := AfterCall(d, activeTurn), OutcomeOf(d, activeTurn);
            && t.history == d.history && t.overlays == d.overlays
            && (outcome.AlreadyArchived? || outcome.ActiveTurn? ==> t == d)
            && (outcome.EmptySnapshot? ==> t == d.(skipped := true))
            && (outcome.Archived? && d.messages != [] ==> t == d.(archivedAt := true))
            && (outcome.Archived? && d.messages == [] ==>
                  && d.alive && !t.alive && t.archivedAt && t.skipped == d.skipped
                  && t.messages == d.history != [] && t.compactions == d.overlays)
  {
  }

  class ThreadArchive {
    var disk: Disk

    constructor (disk: Disk)
      ensures this.disk == disk
    {
      this.disk := disk;
    }

    /** Replace the stored messages, one insert per chunk. */
    method ReplaceMessages(ms: seq<Message>)
      modifies this
      ensures disk == old(disk).(messages := ms)
    {
      disk := disk.(messages := []);
      var i := 0;
      while i < |ms|
        invariant i <= |ms| && disk == old(disk).(messages := ms[..i])
      {
        var next := Min(i + MESSAGE_CHUNK, |ms|);
        TakeMore(ms, i, next);
        disk := disk.(messages := disk.messages + ms[i..next]);
        i := next;
      }
      assert ms[..|ms|] == ms;
    }

    method ReplaceCompactions(cs: seq<Compaction>)
      modifies this
      ensures disk == old(disk).(compactions := cs)
    {
      disk := disk.(compactions := []);
      var i := 0;
      while i < |cs|
        invariant i <= |cs| && disk == old(disk).(compactions := cs[..i])
      {
        var next := Min(i + COMPACTION_CHUNK, |cs|);
        TakeMore(cs, i, next);
        disk := disk.(compactions := disk.compactions + cs[i..next]);
        i := next;
      }
      assert cs[..|cs|] == cs;
    }

    method ArchiveThreadCore(activeTurn: bool) returns (outcome: Outcome)
      modifies this
      ensures disk == AfterCall(old(disk), activeTurn) && outcome == OutcomeOf(old(disk), activeTurn)
    {
      if disk.archivedAt {
        return AlreadyArchived;
      }
      if disk.messages != [] {
        disk := disk.(archivedAt := true);
        return Archived;
      }
      if activeTurn {
        return ActiveTurn;
      }
      var messages := Export(disk);
      var compactions := disk.overlays;
      if |messages| == 0 {
        disk := disk.(skipped := true);
        return EmptySnapshot;
      }
      ReplaceMessages(messages);
      ReplaceCompactions(compactions);
      disk := disk.(archivedAt := true);
      disk := disk.(alive := false);
      return Archived;
    }
  }

  lemma {:induction false} OneStep(s: State, events: seq<Event>)
    ensures Run(s, [Step] + events) == Run(Write(s), events)
  {
    RunConcat(s, [Step], events);
    RunSnoc(s, [], Step);
    assert [] + [Step] == [Step];
  }

  lemma {:induction false} InsertAllMessages(d: Disk, ms: seq<Message>, cs: seq<Compaction>, done: nat)
    returns (events: seq<Event>)
    requires done <= |ms| && d.messages == ms[..done]
    ensures Run(State(d, InsertMessages(ms, cs, done)), events) == State(d.(messages := ms), ClearCompactions(ms, cs))
    decreases |ms| - done
  {
    if done == |ms| {
      assert ms[..|ms|] == ms;
      events := [Step];
      OneStep(State(d, InsertMessages(ms, cs, done)), []);
      assert [Step] + [] == [Step];
    } else {
      var next := Min(done + MESSAGE_CHUNK, |ms|);
      TakeMore(ms, done, next);
      var rest := InsertAllMessages(d.(messages := ms[..next]), ms, cs, next);
      events := [Step] + rest;
      OneStep(State(d, InsertMessages(ms, cs, done)), rest);
    }
  }

  lemma {:induction false} InsertAllCompactions(d: Disk, ms: seq<Message>, cs: seq<Compaction>, done: nat)
    returns (events: seq<Event>)
    requires done <= |cs| && d.compactions == cs[..done]
    ensures Run(State(d, InsertCompactions(ms, cs, done)), events) == State(d.(compactions := cs), SetFlag(ms, cs))
    decreases |cs| - done
  {
    if done == |cs| {
      assert cs[..|cs|] == cs;
      events := [Step];
      OneStep(State(d, InsertCompactions(ms, cs, done)), []);
      assert [Step] + [] == [Step];
    } else {
      var next := Min(done + COMPACTION_CHUNK, |cs|);
      TakeMore(cs, done, next);
      var rest := InsertAllCompactions(d.(compactions := cs[..next]), ms, cs, next);
      events := [Step] + rest;
      OneStep(State(d, InsertCompactions(ms, cs, done)), rest);
    }
  }

  lemma {:induction false} FlagAndDestroy(d: Disk, ms: seq<Message>, cs: seq<Compaction>)
    ensures Run(State(d, SetFlag(ms, cs)), [Step, Step]) == State(d.(archivedAt := true, alive := false), Idle)
  {
    RunTwo(State(d, SetFlag(ms, cs)), Step, Step);
  }

  /** From the cleared tables on, the writes run to the end of the call. */
  lemma {:induction false} WritesRun(d: Disk, ms: seq<Message>, cs: seq<Compaction>) returns (events: seq<Event>)
    ensures Run(State(d, ClearMessages(ms, cs)), events)
            == State(d.(messages := ms, compactions := cs, archivedAt := true, alive := false), Idle)
  {
    var d1 := d.(messages := []);
    var d2 := d.(messages := ms);
    var d3 := d2.(compactions := []);
    var a := InsertAllMessages(d1, ms, cs, 0);
    var b := InsertAllCompactions(d3, ms, cs, 0);
    FlagAndDestroy(d2.(compactions := cs), ms, cs);
    var c := [Step, Step];
    RunConcat(State(d3, InsertCompactions(ms, cs, 0)), b, c);
    OneStep(State(d2, ClearCompactions(ms, cs)), b + c);
    RunConcat(State(d1, InsertMessages(ms, cs, 0)), a, [Step] + (b + c));
    OneStep(State(d, ClearMessages(ms, cs)), a + ([Step] + (b + c)));
    events := [Step] + (a + ([Step] + (b + c)));
  }

  /** The uninterrupted call is one run of the step system. */
  lemma {:induction false} CallIsRun(d: Disk, activeTurn: bool) returns (events: seq<Event>)
    ensures Run(State(d, Idle), [Begin(activeTurn)] + events) == State(AfterCall(d, activeTurn), Idle)
  {
    var s := Start(d, activeTurn);
    if s.call.ClearMessages? {
      events := WritesRun(d, Export(d), d.overlays);
    } else if s.call.Finishing? {
      events := [Step];
      OneStep(s, []);
      assert [Step] + [] == [Step];
    } else {
      events := [];
    }
    RunConcat(State(d, Idle), [Begin(activeTurn)], events);
    RunSnoc(State(d, Idle), [], Begin(activeTurn));
    assert [] + [Begin(activeTurn)] == [Begin(activeTurn)];
  }
  lemma {:induction false} FreshGrows(ms: seq<Message>, cs: seq<Compaction>, m: Message, c: Compaction)
    ensures Next(Fresh(ms, cs), Append(m)) == Fresh(ms + [m], cs)
    ensures Next(Fresh(ms, cs), Overlay(c)) == Fresh(ms, cs + [c])
  {
  }

  lemma {:induction false} Grows(ms: seq<Message>, cs: seq<Compaction>) returns (events: seq<Event>)
    ensures Run(Fresh([], []), events) == Fresh(ms, cs)
  {
    hide Next, Fresh;
    if cs != [] {
      var n := |cs| - 1;
      var front := Grows(ms, cs[..n]);
      RunSnoc(Fresh([], []), front, Overlay(cs[n]));
      FreshGrows(ms, cs[..n], "", cs[n]);
      assert cs == cs[..n] + [cs[n]];
      events := front + [Overlay(cs[n])];
    } else if ms != [] {
      var n := |ms| - 1;
      var front := Grows(ms[..n], []);
      RunSnoc(Fresh([], []), front, Append(ms[n]));
      FreshGrows(ms[..n], [], ms[n], "");
      assert ms == ms[..n] + [ms[n]];
      events := front + [Append(ms[n])];
    } else {
      events := [];
    }
  }

  /** Any non-empty transcript a thread can grow is archived whole, with its compactions, by one call. */
  lemma {:induction false} GrownIsArchived(ms: seq<Message>, cs: seq<Compaction>) returns (events: seq<Event>)
    requires ms != []
    ensures Run(Fresh([], []), events) == State(Disk(true, false, ms, cs, false, ms, cs), Idle)
  {
    var grown := Grows(ms, cs);
    var call := CallIsRun(Fresh(ms, cs).disk, false);
    RunConcat(Fresh([], []), grown, [Begin(false)] + call);
    events := grown + ([Begin(false)] + call);
  }
}
