/**
 The uninterrupted sweep of WorkSweep is one run of the interleaved step system of WorkDelivery.
 */
module WorkSweepRuns {
  import opened Wrappers
  import opened WorkLedger
  import opened WorkDelivery
  import opened WorkSweep

  predicate IsRun(s: State, events: seq<Event>, t: State) {
    Run(s, events) == t
  }

  ghost predicate Reaches(s: State, t: State) {
    exists events :: IsRun(s, events, t)
  }

  lemma {:induction false} RunConcat(s: State, a: seq<Event>, b: seq<Event>)
    ensures Run(s, a + b) == Run(Run(s, a), b)
  {
    if b == [] {
      assert a + b == a;
    } else {
      var front := b[..|b| - 1];
      RunConcat(s, a, front);
      assert (a + b)[..|a + b| - 1] == a + front;
    }
  }

  lemma {:induction false} ReachesOn(s: State, t: State, u: State)
    requires Reaches(s, t) && Reaches(t, u)
    ensures Reaches(s, u)
  {
    var a :| IsRun(s, a, t);
    var b :| IsRun(t, b, u);
    RunConcat(s, a, b);
    assert IsRun(s, a + b, u);
  }

  lemma {:induction false} ReachesNext(s: State, t: State, e: Event)
    requires Reaches(s, t)
    ensures Reaches(s, Next(t, e))
  {
    var a :| IsRun(s, a, t);
    assert (a + [e])[..|a|] == a;
    assert IsRun(s, a + [e], Next(t, e));
  }

  lemma {:induction false} ReachesSelf(s: State)
    ensures Reaches(s, s)
  {
    assert IsRun(s, [], s);
  }

  /** The sweep in progress is the one `env` describes, over the rows listed at its start. */
  predicate Sweeping(s: State, todo: seq<Id>, retry: seq<Id>, before: Ledger, env: Surroundings) {
    s.sweep == Some(WorkDelivery.Sweep(env.now, before, Some(env.current), todo, retry, None))
  }

  lemma {:induction false} DeliverOne(s: State, id: Id, env: Surroundings)
    requires s.sweep.Some? && s.sweep.value.delivering == Some(id) && id in s.books.rows && Owed(s.books.rows[id])
    ensures var t := Next(s, SweepDeliver(env.stampedAt, id in env.throwing));
            && t.sweep == Some(s.sweep.value.(delivering := None)) && t.pushes == s.pushes
            && t.books.rows == s.books.rows[id := Stamp(s.books.rows[id], id, env)]
            && t.books.told == s.books.told + (if id in env.throwing then [] else [id])
  {
  }

  lemma {:induction false} ClassifyOne(s: State, todo: seq<Id>, retry: seq<Id>, before: Ledger, env: Surroundings)
    returns (t: State)
    requires Sweeping(s, todo, retry, before, env) && todo != []
    requires todo[0] in before && todo[0] in s.books.rows && s.books.rows[todo[0]] == before[todo[0]]
    requires Open(before[todo[0]]) && before[todo[0]].deliveredAt.None?
    ensures Reaches(s, t) && Sweeping(t, todo[1..], retry, before, env) && t.pushes == s.pushes
    ensures t.books.rows == s.books.rows[todo[0] := Swept(before[todo[0]], todo[0], env)]
    ensures t.books.told == s.books.told + Telling(before[todo[0]], todo[0], env)
  {
    var id := todo[0];
    ReachesSelf(s);
    ReachesNext(s, s, SweepClassify);
    t := Next(s, SweepClassify);
    if Classify(before[id], env.current, env.now).Gone? {
      DeliverOne(t, id, env);
      ReachesNext(s, t, SweepDeliver(env.stampedAt, id in env.throwing));
      t := Next(t, SweepDeliver(env.stampedAt, id in env.throwing));
    }
  }

  lemma {:induction false} RetryOne(s: State, retry: seq<Id>, before: Ledger, env: Surroundings) returns (t: State)
    requires Sweeping(s, [], retry, before, env) && retry != []
    requires retry[0] in before && retry[0] in s.books.rows && s.books.rows[retry[0]] == before[retry[0]]
    requires Owed(before[retry[0]])
    ensures Reaches(s, t) && Sweeping(t, [], retry[1..], before, env) && t.pushes == s.pushes
    ensures t.books.rows == s.books.rows[retry[0] := Swept(before[retry[0]], retry[0], env)]
    ensures t.books.told == s.books.told + Telling(before[retry[0]], retry[0], env)
  {
    var id := retry[0];
    ReachesSelf(s);
    ReachesNext(s, s, SweepRetry(id in env.watched));
    t := Next(s, SweepRetry(id in env.watched));
    if Retried(before[id], id, env) {
      DeliverOne(t, id, env);
      ReachesNext(s, t, SweepDeliver(env.stampedAt, id in env.throwing));
      t := Next(t, SweepDeliver(env.stampedAt, id in env.throwing));
    }
  }

  function Listed(ids: seq<Id>): set<Id> {
    set id | id in ids
  }

  /** `ids` are still to be swept: named once, in the ledger, not done. */
  predicate Waiting(ids: seq<Id>, done: set<Id>, all: set<Id>) {
    NoDuplicates(ids) && Listed(ids) <= all && Listed(ids) !! done
  }

  lemma {:induction false} WaitingNext(ids: seq<Id>, done: set<Id>, all: set<Id>)
    requires Waiting(ids, done, all) && ids != []
    ensures ids[0] in all && ids[0] !in done
    ensures Waiting(ids[1..], done + {ids[0]}, all)
    ensures done + {ids[0]} + Listed(ids[1..]) == done + Listed(ids)
  {
    assert ids[0] in Listed(ids);
    assert ids == [ids[0]] + ids[1..];
  }

  /** The rows named so far are swept, and `told` added their completions to `earlier`. */
  ghost predicate Progress(s: State, before: Ledger, earlier: seq<Id>, done: set<Id>, env: Surroundings) {
    && SweptSoFar(s.books.rows, before, done, env)
    && earlier <= s.books.told && ToldSoFar(s.books.told[|earlier|..], before, done, env)
  }

  lemma {:induction false} ToldOn(earlier: seq<Id>, told: seq<Id>, more: seq<Id>)
    requires earlier <= told
    ensures earlier <= told + more && (told + more)[|earlier|..] == told[|earlier|..] + more
  {
  }

  lemma {:induction false} OneMoreDone(s: State, t: State, before: Ledger, earlier: seq<Id>, done: set<Id>, id: Id,
        env: Surroundings)
    requires Progress(s, before, earlier, done, env) && id in before && id !in done
    requires t.books.rows == s.books.rows[id := Swept(before[id], id, env)]
    requires t.books.told == s.books.told + Telling(before[id], id, env)
    ensures Progress(t, before, earlier, done + {id}, env)
  {
    OneMoreSwept(s.books.rows, before, done, id, env);
    OneMoreTold(s.books.told[|earlier|..], before, done, id, env);
    ToldOn(earlier, s.books.told, Telling(before[id], id, env));
  }

  lemma {:induction false} ClassifyAll(s: State, todo: seq<Id>, retry: seq<Id>, before: Ledger, earlier: seq<Id>,
                                       done: set<Id>, env: Surroundings)
      returns (t: State)
    requires Sweeping(s, todo, retry, before, env) && Consistent(before)
    requires Progress(s, before, earlier, done, env) && Waiting(todo, done, OpenIds(before))
    ensures Reaches(s, t) && Sweeping(t, [], retry, before, env)
    ensures Progress(t, before, earlier, done + Listed(todo), env)
    decreases |todo|
  {
    if todo == [] {
      ReachesSelf(s);
      t := s;
      assert done + Listed(todo) == done;
    } else {
      WaitingNext(todo, done, OpenIds(before));
      OneMoreSwept(s.books.rows, before, done, todo[0], env);
      var m := ClassifyOne(s, todo, retry, before, env);
      OneMoreDone(s, m, before, earlier, done, todo[0], env);
      t := ClassifyAll(m, todo[1..], retry, before, earlier, done + {todo[0]}, env);
      ReachesOn(s, m, t);
    }
  }

  lemma {:induction false} RetryAll(s: State, retry: seq<Id>, before: Ledger, earlier: seq<Id>, done: set<Id>,
        env: Surroundings)
      returns (t: State)
    requires Sweeping(s, [], retry, before, env)
    requires Progress(s, before, earlier, done, env) && Waiting(retry, done, OwedIds(before))
    ensures Reaches(s, t) && Sweeping(t, [], [], before, env)
    ensures Progress(t, before, earlier, done + Listed(retry), env)
    decreases |retry|
  {
    if retry == [] {
      ReachesSelf(s);
      t := s;
      assert done + Listed(retry) == done;
    } else {
      WaitingNext(retry, done, OwedIds(before));
      OneMoreSwept(s.books.rows, before, done, retry[0], env);
      var m := RetryOne(s, retry, before, env);
      OneMoreDone(s, m, before, earlier, done, retry[0], env);
      t := RetryAll(m, retry[1..], before, earlier, done + {retry[0]}, env);
      ReachesOn(s, m, t);
    }
  }

  lemma {:induction false} EverythingSwept(rows: Ledger, before: Ledger, done: set<Id>, env: Surroundings)
    requires SweptSoFar(rows, before, done, env) && OpenIds(before) + OwedIds(before) <= done
    ensures rows == map id | id in before :: Swept(before[id], id, env)
  {
    forall id | id in before && id !in done ensures Swept(before[id], id, env) == before[id] {
      assert id !in OpenIds(before) && id !in OwedIds(before);
    }
  }

  lemma {:induction false} ListedAll(ids: seq<Id>, all: set<Id>)
    requires Lists(ids, all)
    ensures Listed(ids) == all && NoDuplicates(ids)
  {
  }

  lemma {:induction false} Begun(s: State, todo: seq<Id>, retry: seq<Id>, env: Surroundings)
    requires s.sweep.None? && Lists(todo, OpenIds(s.books.rows)) && Lists(retry, OwedIds(s.books.rows))
             && todo + retry != []
    ensures Reaches(s, Next(Next(s, SweepStart(env.now, todo, retry)), SweepResolve(env.current)))
    ensures Sweeping(Next(Next(s, SweepStart(env.now, todo, retry)), SweepResolve(env.current)), todo, retry,
            s.books.rows, env)
    ensures Next(Next(s, SweepStart(env.now, todo, retry)), SweepResolve(env.current)).books == s.books
  {
    var a := Next(s, SweepStart(env.now, todo, retry));
    ReachesSelf(s);
    ReachesNext(s, s, SweepStart(env.now, todo, retry));
    ReachesNext(s, a, SweepResolve(env.current));
  }

  lemma {:induction false} NothingListed(todo: seq<Id>, retry: seq<Id>, rows: Ledger)
    requires Lists(todo, OpenIds(rows)) && Lists(retry, OwedIds(rows))
    ensures todo + retry == [] <==> NothingToDo(rows)
  {
    EveryMemberListed(todo, OpenIds(rows));
    EveryMemberListed(retry, OwedIds(rows));
  }

  lemma {:induction false} BothPasses(s: State, todo: seq<Id>, retry: seq<Id>, before: Ledger, env: Surroundings)
    returns (t: State)
    requires Sweeping(s, todo, retry, before, env) && Consistent(before) && s.books.rows == before
    requires Lists(todo, OpenIds(before)) && Lists(retry, OwedIds(before))
    ensures Reaches(s, t) && Sweeping(t, [], [], before, env)
    ensures t.books.rows == map id | id in before :: Swept(before[id], id, env)
    ensures s.books.told <= t.books.told && ToldSoFar(t.books.told[|s.books.told|..], before, before.Keys, env)
  {
    var earlier := s.books.told;
    ListedAll(todo, OpenIds(before));
    ListedAll(retry, OwedIds(before));
    assert earlier[|earlier|..] == [];
    var m := ClassifyAll(s, todo, retry, before, earlier, {}, env);
    t := RetryAll(m, retry, before, earlier, OpenIds(before), env);
    ReachesOn(s, m, t);
    var done := OpenIds(before) + OwedIds(before);
    EverythingSwept(t.books.rows, before, done, env);
    RestUntouched(t.books.rows, before, done, t.books.told[|earlier|..], env);
  }

  lemma {:induction false} Ended(s: State, before: Ledger, env: Surroundings)
    requires Sweeping(s, [], [], before, env)
    ensures var t := Next(s, SweepEnd);
            && t.sweep.None? && t.books.told == s.books.told
            && t.books.rows == Pruned(s.books.rows, env.now - WORK_ROW_RETENTION_MS)
  {
  }

  /** From any state between sweeps, some run of the step system leaves the ledger exactly as the
      uninterrupted sweep does and enqueues exactly the completions it does, each once, whatever the
      surroundings. */
  lemma {:induction false} SweepIsRun(s: State, todo: seq<Id>, retry: seq<Id>, env: Surroundings) returns (t: State)
    requires s.sweep.None? && Consistent(s.books.rows)
    requires Lists(todo, OpenIds(s.books.rows)) && Lists(retry, OwedIds(s.books.rows))
    ensures Reaches(s, t) && t.sweep.None?
    ensures t.books.rows == AfterSweep(s.books.rows, env)
    ensures s.books.told <= t.books.told
    ensures ToldSoFar(t.books.told[|s.books.told|..], s.books.rows, s.books.rows.Keys, env)
  {
    NothingListed(todo, retry, s.books.rows);
    if todo + retry == [] {
      ReachesSelf(s);
      IdleTellsNothing(s.books.rows, env);
      assert s.books.told[|s.books.told|..] == [];
      return s;
    }
    Begun(s, todo, retry, env);
    var a := Next(Next(s, SweepStart(env.now, todo, retry)), SweepResolve(env.current));
    var b := BothPasses(a, todo, retry, s.books.rows, env);
    ReachesOn(s, a, b);
    Ended(b, s.books.rows, env);
    ReachesNext(s, b, SweepEnd);
    t := Next(b, SweepEnd);
  }

  /** Every reachable ledger is one the uninterrupted sweep may start from. */
  lemma {:induction false} ReachableConsistent(events: seq<Event>)
    ensures Consistent(Run(EMPTY, events).books.rows)
  {
    RunKeepsInv(events);
    var b := Run(EMPTY, events).books;
    forall id | id in b.rows && Open(b.rows[id]) ensures b.rows[id].deliveredAt.None? {
      assert Accounted(b, id);
    }
  }
}
