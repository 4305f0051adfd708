/**
 Repair of reasoning streams that begin in the middle (src/agent/reasoning-stream-repair.ts).
 */
module ReasoningStream {

  datatype Part =
    | ReasoningStart(id: string, metadata: string)
    | ReasoningDelta(id: string, metadata: string, text: string)
    | ReasoningEnd(id: string, metadata: string)
    | FinishStep
    | Other(content: string)

  predicate NeedsStart(p: Part) {
    p.ReasoningDelta? || p.ReasoningEnd?
  }

  /** The ids open after one more part. */
  function Opened(open: set<string>, p: Part): set<string> {
    match p
    case ReasoningStart(id, _) => open + {id}
    case ReasoningDelta(_, _, _) => open
    case ReasoningEnd(id, _) => open - {id}
    case FinishStep => {}
    case Other(_) => open
  }

  function Open(parts: seq<Part>): set<string> {
    if parts == [] then {} else Opened(Open(parts[..|parts| - 1]), parts[|parts| - 1])
  }

  /** Every reasoning delta and end follows an open start of its id in the same step. */
  predicate WellFormed(parts: seq<Part>) {
    forall i :: 0 <= i < |parts| && NeedsStart(parts[i]) ==> parts[i].id in Open(parts[..i])
  }

  /** A part of an output stream, and whether the repair put it there. */
  datatype Tagged = Tagged(part: Part, inserted: bool)

  function Untag(trace: seq<Tagged>): seq<Part> {
    seq(|trace|, i requires 0 <= i < |trace| => trace[i].part)
  }

  /** The stream without what was inserted. */
  function Erase(trace: seq<Tagged>): seq<Part> {
    if trace == [] then []
    else
      var last := trace[|trace| - 1];
      Erase(trace[..|trace| - 1]) + (if last.inserted then [] else [last.part])
  }

  function Inserted(trace: seq<Tagged>): nat {
    if trace == [] then 0
    else Inserted(trace[..|trace| - 1]) + (if trace[|trace| - 1].inserted then 1 else 0)
  }

  predicate Orphan(active: set<string>, p: Part) {
    NeedsStart(p) && p.id !in active
  }

  /** What one part turns into. */
  function Emitted(active: set<string>, p: Part): seq<Tagged> {
    if Orphan(active, p) then [Tagged(ReasoningStart(p.id, p.metadata), true), Tagged(p, false)] else [Tagged(p, false)]
  }

  /** The parts put out for one part. */
  function Outputs(active: set<string>, p: Part): seq<Part> {
    if Orphan(active, p) then [ReasoningStart(p.id, p.metadata), p] else [p]
  }

  function ActiveAfter(active: set<string>, p: Part): set<string> {
    match p
    case ReasoningStart(id, _) => active + {id}
    case ReasoningDelta(id, _, _) => active + {id}
    case ReasoningEnd(id, _) => active - {id}
    case FinishStep => {}
    case Other(_) => active
  }

  function Active(parts: seq<Part>): set<string> {
    if parts == [] then {} else ActiveAfter(Active(parts[..|parts| - 1]), parts[|parts| - 1])
  }

  /** The repaired stream of an input, tagged. */
  function Trace(parts: seq<Part>): seq<Tagged> {
    if parts == [] then []
    else Trace(parts[..|parts| - 1]) + Emitted(Active(parts[..|parts| - 1]), parts[|parts| - 1])
  }

  function Repaired(parts: seq<Part>): seq<Part> {
    Untag(Trace(parts))
  }

  /** The transform stream: a mutable set of active ids and an output queue. */
  class RepairTransform {
    var activeReasoning: set<string>
    var output: seq<Part>

    constructor ()
      ensures activeReasoning == {} && output == []
    {
      activeReasoning, output := {}, [];
    }

    method Transform(part: Part)
      modifies this
      ensures activeReasoning == ActiveAfter(old(activeReasoning), part)
      ensures output == old(output) + Outputs(old(activeReasoning), part)
    {
      match part {
        case ReasoningStart(id, _) =>
          activeReasoning := activeReasoning + {id};
          output := output + [part];
        case ReasoningDelta(id, metadata, _) =>
          if id !in activeReasoning {
            activeReasoning := activeReasoning + {id};
            output := output + [ReasoningStart(id, metadata), part];
          } else {
            output := output + [part];
          }
        case ReasoningEnd(id, metadata) =>
          if id !in activeReasoning {
            output := output + [ReasoningStart(id, metadata), part];
          } else {
            output := output + [part];
          }
          activeReasoning := activeReasoning - {id};
        case FinishStep =>
          activeReasoning := {};
          output := output + [part];
        case Other(_) =>
          output := output + [part];
      }
    }

    /** Feeding a whole stream through a fresh transform. */
    method Pipe(parts: seq<Part>)
      requires activeReasoning == {} && output == []
      modifies this
      ensures activeReasoning == Active(parts) && output == Repaired(parts)
    {
      for i := 0 to |parts|
        invariant activeReasoning == Active(parts[..i]) && output == Repaired(parts[..i])
      {
        assert parts[..i + 1] == parts[..i] + [parts[i]];
        RepairedSnoc(parts[..i], parts[i]);
        Transform(parts[i]);
      }
      assert parts[..|parts|] == parts;
    }
  }

  // ---------- one part at a time ----------

  lemma {:induction false} UntagConcat(a: seq<Tagged>, b: seq<Tagged>)
    ensures Untag(a + b) == Untag(a) + Untag(b)
  {
  }

  lemma {:induction false} UntagEmitted(active: set<string>, p: Part)
    ensures Untag(Emitted(active, p)) == Outputs(active, p)
  {
  }

  lemma {:induction false} RepairedSnoc(parts: seq<Part>, p: Part)
    ensures Active(parts + [p]) == ActiveAfter(Active(parts), p)
    ensures Trace(parts + [p]) == Trace(parts) + Emitted(Active(parts), p)
    ensures Repaired(parts + [p]) == Repaired(parts) + Outputs(Active(parts), p)
  {
    assert (parts + [p])[..|parts|] == parts;
    UntagEmitted(Active(parts), p);
    UntagConcat(Trace(parts), Emitted(Active(parts), p));
  }

  lemma {:induction false} OpenSnoc(parts: seq<Part>, p: Part)
    ensures Open(parts + [p]) == Opened(Open(parts), p)
  {
    assert (parts + [p])[..|parts|] == parts;
  }

  lemma {:induction false} WellFormedSnoc(parts: seq<Part>, p: Part)
    ensures WellFormed(parts + [p]) <==> WellFormed(parts) && (NeedsStart(p) ==> p.id in Open(parts))
  {
    var s := parts + [p];
    assert s[..|parts|] == parts;
    assert forall i :: 0 <= i < |parts| ==> s[i] == parts[i] && s[..i] == parts[..i];
    if WellFormed(s) {
      assert s[|parts|] == p;
      forall i | 0 <= i < |parts| && NeedsStart(parts[i]) ensures parts[i].id in Open(parts[..i]) {
        assert s[i] == parts[i];
      }
    }
  }

  lemma {:induction false} ErasePlain(trace: seq<Tagged>, p: Part)
    ensures Erase(trace + [Tagged(p, false)]) == Erase(trace) + [p]
    ensures Inserted(trace + [Tagged(p, false)]) == Inserted(trace)
  {
    assert (trace + [Tagged(p, false)])[..|trace|] == trace;
  }

  lemma {:induction false} EraseInserted(trace: seq<Tagged>, p: Part)
    ensures Erase(trace + [Tagged(p, true)]) == Erase(trace)
    ensures Inserted(trace + [Tagged(p, true)]) == Inserted(trace) + 1
  {
    assert (trace + [Tagged(p, true)])[..|trace|] == trace;
  }

  // ---------- the repaired stream ----------

  /** One part keeps the output well formed, and the active ids are those open in it. */
  lemma {:induction false} RepairStep(out: seq<Part>, active: set<string>, p: Part)
    requires Open(out) == active && WellFormed(out)
    ensures Open(out + Untag(Emitted(active, p))) == ActiveAfter(active, p)
    ensures WellFormed(out + Untag(Emitted(active, p)))
  {
    UntagEmitted(active, p);
    if Orphan(active, p) {
      var start := ReasoningStart(p.id, p.metadata);
      assert out + [start, p] == out + [start] + [p];
      OpenSnoc(out, start);
      WellFormedSnoc(out, start);
      OpenSnoc(out + [start], p);
      WellFormedSnoc(out + [start], p);
    } else {
      OpenSnoc(out, p);
      WellFormedSnoc(out, p);
    }
  }

  /** The ids the transform holds active are the ids open in its output, and the output is well formed. */
  lemma {:induction false} RepairedWellFormed(parts: seq<Part>)
    ensures Open(Repaired(parts)) == Active(parts)
    ensures WellFormed(Repaired(parts))
  {
    if parts != [] {
      var front, p := parts[..|parts| - 1], parts[|parts| - 1];
      RepairedWellFormed(front);
      UntagConcat(Trace(front), Emitted(Active(front), p));
      RepairStep(Repaired(front), Active(front), p);
    }
  }

  lemma {:induction false} EraseEmitted(trace: seq<Tagged>, active: set<string>, p: Part)
    ensures Erase(trace + Emitted(active, p)) == Erase(trace) + [p]
    ensures Inserted(trace + Emitted(active, p)) == Inserted(trace) + (if Orphan(active, p) then 1 else 0)
  {
    if Orphan(active, p) {
      var start := ReasoningStart(p.id, p.metadata);
      assert trace + Emitted(active, p) == trace + [Tagged(start, true)] + [Tagged(p, false)];
      EraseInserted(trace, start);
      ErasePlain(trace + [Tagged(start, true)], p);
    } else {
      ErasePlain(trace, p);
    }
  }

  lemma {:induction false} EraseStep(parts: seq<Part>, p: Part, whole: seq<Part>)
    requires Erase(Trace(parts)) == parts && whole == parts + [p]
    ensures Erase(Trace(whole)) == whole
  {
    RepairedSnoc(parts, p);
    EraseEmitted(Trace(parts), Active(parts), p);
  }

  lemma {:induction false} FrontAndLast<T>(s: seq<T>)
    requires s != []
    ensures s == s[..|s| - 1] + [s[|s| - 1]]
  {
  }

  lemma {:induction false} EraseNothing()
    ensures Erase(Trace([])) == []
  {
  }

  /** Taking the inserted starts out gives back the input. */
  lemma {:induction false} EraseGivesInput(parts: seq<Part>)
    ensures Erase(Trace(parts)) == parts
  {
    if |parts| == 0 {
      assert parts == [];
      EraseNothing();
    } else {
      EraseGivesInput(parts[..|parts| - 1]);
      FrontAndLast(parts);
      EraseStep(parts[..|parts| - 1], parts[|parts| - 1], parts);
    }
  }

  /** Only reasoning starts are ever inserted, each directly before a part of its own id. */
  lemma {:induction false} InsertsOnlyStarts(parts: seq<Part>, i: nat)
    requires i < |Trace(parts)| && Trace(parts)[i].inserted
    ensures i + 1 < |Trace(parts)| && !Trace(parts)[i + 1].inserted
    ensures var p := Trace(parts)[i + 1].part;
            NeedsStart(p) && Trace(parts)[i].part == ReasoningStart(p.id, p.metadata)
  {
    var front := parts[..|parts| - 1];
    if i < |Trace(front)| {
      InsertsOnlyStarts(front, i);
    }
  }

  /** A well-formed stream passes through unchanged. */
  lemma {:induction false} WellFormedUnchanged(parts: seq<Part>)
    requires WellFormed(parts)
    ensures Repaired(parts) == parts && Active(parts) == Open(parts)
  {
    if parts != [] {
      var front, p := parts[..|parts| - 1], parts[|parts| - 1];
      assert parts == front + [p];
      WellFormedSnoc(front, p);
      WellFormedUnchanged(front);
      RepairedSnoc(front, p);
      OpenSnoc(front, p);
    }
  }

  /** Repairing a repaired stream changes nothing. */
  lemma {:induction false} RepairIdempotent(parts: seq<Part>)
    ensures Repaired(Repaired(parts)) == Repaired(parts)
  {
    RepairedWellFormed(parts);
    WellFormedUnchanged(Repaired(parts));
  }

  // ---------- minimality ----------

  lemma {:induction false} DifferenceSteps(w: set<string>, r: set<string>, id: string)
    ensures |(w + {id}) - r| <= |w - r| + 1
    ensures |(w + {id}) - (r + {id})| <= |w - r|
    ensures |(w - {id}) - r| <= |w - r|
    ensures |(w - {id}) - (r - {id})| <= |w - r|
    ensures id in w && id !in r ==> |w - (r + {id})| + 1 <= |w - r| && |(w - {id}) - r| + 1 <= |w - r|
    ensures id in w && id !in r ==> |(w - {id}) - (r - {id})| + 1 <= |w - r|
    ensures id in r ==> |w - (r + {id})| == |w - r|
  {
    var d := w - r;
    Bigger((w + {id}) - r, d + {id});
    Bigger((w + {id}) - (r + {id}), d);
    Bigger((w - {id}) - r, d);
    Bigger((w - {id}) - (r - {id}), d);
    if id in w && id !in r {
      DifferenceDrops(w, r, id);
    }
    if id in r {
      assert w - (r + {id}) == d;
    }
  }

  lemma {:induction false} DifferenceDrops(w: set<string>, r: set<string>, id: string)
    requires id in w && id !in r
    ensures |w - (r + {id})| + 1 == |(w - {id}) - r| + 1 == |(w - {id}) - (r - {id})| + 1 == |w - r|
  {
    var d := w - r;
    assert w - (r + {id}) == d - {id};
    assert (w - {id}) - r == d - {id};
    assert (w - {id}) - (r - {id}) == d - {id};
  }

  lemma {:induction false} Bigger(a: set<string>, b: set<string>)
    requires a <= b
    ensures |a| <= |b|
  {
    var rest := b - a;
    assert b == a + rest;
  }

  /** Any well-formed way of filling the input in has inserted at least as much, and what it holds
      open beyond the repair it has paid for in advance. */
  lemma {:induction false} RepairPaysLate(w: seq<Tagged>)
    requires WellFormed(Untag(w))
    ensures Inserted(Trace(Erase(w))) + |Open(Untag(w)) - Active(Erase(w))| <= Inserted(w)
  {
    if w != [] {
      var front, last := w[..|w| - 1], w[|w| - 1];
      assert w == front + [last];
      UntagConcat(front, [last]);
      assert Untag([last]) == [last.part];
      WellFormedSnoc(Untag(front), last.part);
      RepairPaysLate(front);
      OpenSnoc(Untag(front), last.part);
      if last.inserted {
        EraseInserted(front, last.part);
        InsertedStep(Open(Untag(front)), Active(Erase(front)), last.part);
      } else {
        ErasePlain(front, last.part);
        RepairedSnoc(Erase(front), last.part);
        EraseEmitted(Trace(Erase(front)), Active(Erase(front)), last.part);
        KeptStep(Open(Untag(front)), Active(Erase(front)), last.part);
      }
    }
  }

  lemma {:induction false} InsertedStep(open: set<string>, active: set<string>, p: Part)
    ensures |Opened(open, p) - active| <= |open - active| + 1
  {
    DifferenceSteps(open, active, match p case ReasoningStart(id, _) => id case ReasoningEnd(id, _) => id case _ => "");
  }

  lemma {:induction false} KeptStep(open: set<string>, active: set<string>, p: Part)
    requires NeedsStart(p) ==> p.id in open
    ensures (if Orphan(active, p) then 1 else 0) + |Opened(open, p) - ActiveAfter(active, p)| <= |open - active|
  {
    if !p.FinishStep? && !p.Other? {
      DifferenceSteps(open, active, p.id);
    }
  }

  /** The repair is as short as any: no well-formed stream that contains the input in order is shorter. */
  lemma {:induction false} RepairIsShortest(w: seq<Tagged>)
    requires WellFormed(Untag(w))
    ensures |Repaired(Erase(w))| <= |w|
  {
    RepairPaysLate(w);
    EraseGivesInput(Erase(w));
    EraseLength(w);
    EraseLength(Trace(Erase(w)));
  }

  lemma {:induction false} EraseLength(w: seq<Tagged>)
    ensures |w| == |Erase(w)| + Inserted(w)
  {
    if w != [] {
      EraseLength(w[..|w| - 1]);
    }
  }
}
