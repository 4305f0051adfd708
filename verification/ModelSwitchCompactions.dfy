/**
 Any number of compactions of one transcript (src/agent/cross-model-reasoning-sanitize.ts:133-170): what
 restoring the latest switch guarantees when several spans have been archived.
 */
module ModelSwitchCompactions {
  import opened Wrappers
  import opened ModelSegments
  import opened ModelSwitchRestore

  /** A stretch of messages still there, and the archived span behind it with the summary that replaced it. */
  datatype Cut = Cut(kept: seq<Message>, span: seq<Message>, summary: Message)

  function FullOf(cuts: seq<Cut>): seq<Message> {
    if cuts == [] then []
    else
      var last := cuts[|cuts| - 1];
      FullOf(cuts[..|cuts| - 1]) + (last.kept + last.span)
  }

  function ShortOf(cuts: seq<Cut>): seq<Message> {
    if cuts == [] then []
    else
      var last := cuts[|cuts| - 1];
      ShortOf(cuts[..|cuts| - 1]) + (last.kept + [last.summary])
  }

  /** The transcript as it was written, and as the compactions left it. */
  function Whole(cuts: seq<Cut>, last: seq<Message>): seq<Message> {
    FullOf(cuts) + last
  }

  function Shortened(cuts: seq<Cut>, last: seq<Message>): seq<Message> {
    ShortOf(cuts) + last
  }

  /** Stretch `j` of what is left; the one behind the last cut comes last. */
  function Stretch(cuts: seq<Cut>, last: seq<Message>, j: nat): seq<Message>
    requires j <= |cuts|
  {
    if j < |cuts| then cuts[j].kept else last
  }

  predicate NoSummaries(messages: seq<Message>) {
    forall i :: 0 <= i < |messages| ==> !messages[i].isSummary
  }

  /** Every summary there is stands for one of the cuts, and carries no marker. */
  predicate WellCut(cuts: seq<Cut>, last: seq<Message>) {
    && (forall i :: 0 <= i < |cuts| ==>
          cuts[i].summary.isSummary && SwitchesIn(cuts[i].summary.parts) == [] && NoSummaries(cuts[i].kept))
    && NoSummaries(last)
  }

  // ---------- one surviving message ----------

  predicate KeepsAt(messages: seq<Message>, i: nat) {
    i < |messages| && KeepsReasoning(messages, i)
  }

  /** Message `m` of stretch `j` keeps reasoning that sanitizing the full transcript would have dropped. */
  predicate LeaksAt(shown: seq<Message>, cuts: seq<Cut>, last: seq<Message>, j: nat, m: nat)
    requires j <= |cuts|
  {
    && KeepsAt(shown, |ShortOf(cuts[..j])| + m)
    && !KeepsAt(Whole(cuts, last), |FullOf(cuts[..j])| + m)
  }

  /** No surviving message does. */
  ghost predicate KeepsAllForeignOut(shown: seq<Message>, cuts: seq<Cut>, last: seq<Message>) {
    forall j, m :: 0 <= j <= |cuts| && 0 <= m < |Stretch(cuts, last, j)| ==> !LeaksAt(shown, cuts, last, j, m)
  }

  lemma {:induction false} FullPrefix(cuts: seq<Cut>, k: nat) returns (more: seq<Message>)
    requires k <= |cuts|
    ensures FullOf(cuts) == FullOf(cuts[..k]) + more
  {
    if k == |cuts| {
      assert cuts[..k] == cuts;
      more := [];
    } else {
      var front, end := cuts[..|cuts| - 1], cuts[|cuts| - 1];
      more := FullPrefix(front, k);
      assert front[..k] == cuts[..k];
      Regroup(FullOf(cuts[..k]), more, end.kept + end.span);
      more := more + (end.kept + end.span);
    }
  }

  lemma {:induction false} ShortPrefix(cuts: seq<Cut>, k: nat) returns (more: seq<Message>)
    requires k <= |cuts|
    ensures ShortOf(cuts) == ShortOf(cuts[..k]) + more
  {
    if k == |cuts| {
      assert cuts[..k] == cuts;
      more := [];
    } else {
      var front, end := cuts[..|cuts| - 1], cuts[|cuts| - 1];
      more := ShortPrefix(front, k);
      assert front[..k] == cuts[..k];
      Regroup(ShortOf(cuts[..k]), more, end.kept + [end.summary]);
      more := more + (end.kept + [end.summary]);
    }
  }

  lemma {:induction false} Regroup4<T>(a: seq<T>, b: seq<T>, c: seq<T>, d: seq<T>, e: seq<T>)
    ensures a + (b + c) + d + e == a + (b + (c + d + e))
  {
  }

  lemma {:induction false} FullStretch(cuts: seq<Cut>, last: seq<Message>, j: nat) returns (rest: seq<Message>)
    requires j <= |cuts|
    ensures Whole(cuts, last) == FullOf(cuts[..j]) + (Stretch(cuts, last, j) + rest)
  {
    if j == |cuts| {
      assert cuts[..j] == cuts;
      rest := [];
      NothingAdded(last);
    } else {
      var more := FullPrefix(cuts, j + 1);
      assert cuts[..j + 1][..j] == cuts[..j];
      rest := cuts[j].span + more + last;
      Regroup4(FullOf(cuts[..j]), cuts[j].kept, cuts[j].span, more, last);
    }
  }

  lemma {:induction false} ShortStretch(cuts: seq<Cut>, last: seq<Message>, j: nat) returns (rest: seq<Message>)
    requires j <= |cuts|
    ensures Shortened(cuts, last) == ShortOf(cuts[..j]) + (Stretch(cuts, last, j) + rest)
  {
    if j == |cuts| {
      assert cuts[..j] == cuts;
      rest := [];
      NothingAdded(last);
    } else {
      var more := ShortPrefix(cuts, j + 1);
      assert cuts[..j + 1][..j] == cuts[..j];
      rest := [cuts[j].summary] + more + last;
      Regroup4(ShortOf(cuts[..j]), cuts[j].kept, [cuts[j].summary], more, last);
    }
  }

  lemma {:induction false} SeenInside(kept: seq<Message>, rest: seq<Message>, m: nat)
    requires m < |kept|
    ensures Seen(kept + rest, m + 1) == Seen(kept, m + 1) && (kept + rest)[m] == kept[m]
  {
    assert (kept + rest)[..m + 1] == kept[..m + 1];
  }

  /** What decides about one message of a stretch: the markers before the stretch, those seen in it, and all. */
  lemma {:induction false} KeptInStretch(
    whole: seq<Message>, before: seq<Message>, kept: seq<Message>, rest: seq<Message>, m: nat)
    requires whole == before + (kept + rest) && m < |kept|
    ensures KeepsAt(whole, |before| + m)
            <==> KeptFrom(Switches(before) + Seen(kept, m + 1), Switches(whole), HasReasoning(kept[m]))
  {
    hide KeptFrom, Switches, HasReasoning, Seen;
    KeepsRight(before, kept + rest, m);
    SeenInside(kept, rest, m);
    SwitchesConcat(before, kept + rest);
  }

  /** A message leaks exactly when its stretch has seen no marker yet and is entered on the current model
      in what is shown but not in the full transcript. */
  lemma {:induction false} LeakSwitches(full: seq<Switch>, short: seq<Switch>, seen: seq<Switch>,
        all: seq<Switch>, shown: seq<Switch>, reasons: bool)
    requires all != [] && shown != [] && CurrentOf(all) == CurrentOf(shown)
    ensures KeptFrom(short + seen, shown, reasons) && !KeptFrom(full + seen, all, reasons)
            <==>
              && reasons && seen == []
              && OriginOf(short, shown) == CurrentOf(all) && OriginOf(full, all) != CurrentOf(all)
  {
    if seen == [] {
      NothingAdded(short);
      NothingAdded(full);
    } else {
      assert (short + seen)[|short + seen| - 1] == seen[|seen| - 1];
      assert (full + seen)[|full + seen| - 1] == seen[|seen| - 1];
    }
  }

  /** The cuts as shown may differ in their summaries only. */
  predicate SameStretches(cuts: seq<Cut>, shown: seq<Cut>) {
    |shown| == |cuts| && forall i :: 0 <= i < |cuts| ==> shown[i].kept == cuts[i].kept
  }

  lemma {:induction false} SameLengths(cuts: seq<Cut>, shown: seq<Cut>)
    requires SameStretches(cuts, shown)
    ensures |ShortOf(shown)| == |ShortOf(cuts)|
  {
    if cuts != [] {
      SameLengths(cuts[..|cuts| - 1], shown[..|cuts| - 1]);
    }
  }

  lemma {:induction false} LeakInStretch(cuts: seq<Cut>, shown: seq<Cut>, last: seq<Message>, j: nat, m: nat)
    requires SameStretches(cuts, shown) && j <= |cuts| && m < |Stretch(cuts, last, j)|
    requires Switches(Whole(cuts, last)) != [] && Switches(Shortened(shown, last)) != []
    requires CurrentOf(Switches(Whole(cuts, last))) == CurrentOf(Switches(Shortened(shown, last)))
    ensures LeaksAt(Shortened(shown, last), cuts, last, j, m) <==>
              && Seen(Stretch(cuts, last, j), m + 1) == [] && HasReasoning(Stretch(cuts, last, j)[m])
              && EntersOnCurrent(ShortOf(shown[..j]), Shortened(shown, last))
              && !EntersOnCurrent(FullOf(cuts[..j]), Whole(cuts, last))
  {
    hide KeptFrom, Switches, HasReasoning, Seen, KeepsAt, Whole, Shortened, FullOf, ShortOf;
    var kept := Stretch(cuts, last, j);
    var rest := FullStretch(cuts, last, j);
    KeptInStretch(Whole(cuts, last), FullOf(cuts[..j]), kept, rest, m);
    SameAt(cuts, shown, last, j);
    var rest' := ShortStretch(shown, last, j);
    KeptInStretch(Shortened(shown, last), ShortOf(shown[..j]), kept, rest', m);
    LeakSwitches(Switches(FullOf(cuts[..j])), Switches(ShortOf(shown[..j])), Seen(kept, m + 1),
                 Switches(Whole(cuts, last)), Switches(Shortened(shown, last)), HasReasoning(kept[m]));
  }

  lemma {:induction false} SameAt(cuts: seq<Cut>, shown: seq<Cut>, last: seq<Message>, j: nat)
    requires SameStretches(cuts, shown) && j <= |cuts|
    ensures Stretch(shown, last, j) == Stretch(cuts, last, j)
    ensures |ShortOf(shown[..j])| == |ShortOf(cuts[..j])|
  {
    SameLengths(cuts[..j], shown[..j]);
  }

  /** What follows `before` starts out on the model the whole transcript ends on. */
  predicate EntersOnCurrent(before: seq<Message>, whole: seq<Message>) {
    OriginOf(Switches(before), Switches(whole)) == CurrentOf(Switches(whole))
  }

  /** A stretch opens with reasoning of another model that what is shown passes for the current one's. */
  predicate OpensForeign(cuts: seq<Cut>, shown: seq<Cut>, last: seq<Message>, j: nat)
    requires |shown| == |cuts| && j <= |cuts|
  {
    && ReasonsBeforeSwitch(Stretch(cuts, last, j))
    && EntersOnCurrent(ShortOf(shown[..j]), Shortened(shown, last))
    && !EntersOnCurrent(FullOf(cuts[..j]), Whole(cuts, last))
  }

  lemma {:induction false} LeaksExactly(cuts: seq<Cut>, shown: seq<Cut>, last: seq<Message>)
    requires SameStretches(cuts, shown)
    requires Switches(Whole(cuts, last)) != [] && Switches(Shortened(shown, last)) != []
    requires CurrentOf(Switches(Whole(cuts, last))) == CurrentOf(Switches(Shortened(shown, last)))
    ensures KeepsAllForeignOut(Shortened(shown, last), cuts, last)
            <==> forall j :: 0 <= j <= |cuts| ==> !OpensForeign(cuts, shown, last, j)
  {
    hide Switches, HasReasoning, Seen, LeaksAt, EntersOnCurrent, Shortened, Whole;
    if j: nat :| j <= |cuts| && OpensForeign(cuts, shown, last, j) {
      var m := ReasonedBeforeSwitch(Stretch(cuts, last, j));
      LeakInStretch(cuts, shown, last, j, m);
    } else {
      forall j, m | 0 <= j <= |cuts| && 0 <= m < |Stretch(cuts, last, j)|
        ensures !LeaksAt(Shortened(shown, last), cuts, last, j, m)
      {
        LeakInStretch(cuts, shown, last, j, m);
        assert !OpensForeign(cuts, shown, last, j);
        NoneBeforeSwitch(Stretch(cuts, last, j), m);
      }
    }
  }

  lemma {:induction false} NoneBeforeSwitch(messages: seq<Message>, m: nat)
    requires m < |messages|
    ensures Seen(messages, m + 1) == [] && HasReasoning(messages[m]) ==> ReasonsBeforeSwitch(messages)
  {
  }

  // ---------- restoring ----------

  /** What restoring shows: the last summary gets the marker, unless the model in use is already the last one. */
  function Remarked(cuts: seq<Cut>, data: Switch): seq<Cut>
    requires cuts != []
  {
    var n := |cuts| - 1;
    cuts[n := cuts[n].(summary := WithMarker(cuts[n].summary, data))]
  }

  lemma {:induction false} LastNotSummary(pre: seq<Message>, summary: Message, last: seq<Message>)
    requires summary.isSummary && NoSummaries(last)
    ensures LastSummary(pre + ([summary] + last)) == Some(|pre|)
  {
    var messages := pre + ([summary] + last);
    assert messages[|pre|] == summary;
    forall i | |pre| < i < |messages| ensures !messages[i].isSummary {
      assert messages[i] == last[i - |pre| - 1];
    }
  }

  lemma {:induction false} AnchorGone(messages: seq<Message>, origin: Origin)
    requires AnchorArchived(origin, messages)
    ensures InjectionIndex(messages, origin.anchorMessageId) == LastSummary(messages)
  {
  }

  /** Behind the last cut the transcript has no marker if it does not end on the last switch's model. */
  lemma {:induction false} NothingBehind(cuts: seq<Cut>, last: seq<Message>)
    requires Switches(Whole(cuts, last)) != []
    requires CurrentOf(Switches(Shortened(cuts, last))) != CurrentOf(Switches(Whole(cuts, last)))
    ensures cuts != [] && Switches(last) == []
  {
    SwitchesConcat(FullOf(cuts), last);
    SwitchesConcat(ShortOf(cuts), last);
  }

  lemma {:induction false} ShortenedTail(cuts: seq<Cut>, last: seq<Message>)
    requires cuts != []
    ensures var n := |cuts| - 1;
            Shortened(cuts, last) == (ShortOf(cuts[..n]) + cuts[n].kept) + ([cuts[n].summary] + last)
  {
    var n := |cuts| - 1;
    Regroup(ShortOf(cuts[..n]), cuts[n].kept, [cuts[n].summary]);
    Regroup(ShortOf(cuts[..n]) + cuts[n].kept, [cuts[n].summary], last);
  }

  lemma {:induction false} MarkedTail(cuts: seq<Cut>, last: seq<Message>, data: Switch)
    requires cuts != []
    ensures var n := |cuts| - 1;
            Shortened(Remarked(cuts, data), last)
            == (ShortOf(cuts[..n]) + cuts[n].kept) + ([WithMarker(cuts[n].summary, data)] + last)
  {
    hide WithMarker;
    assert Remarked(cuts, data)[..|cuts| - 1] == cuts[..|cuts| - 1];
    ShortenedTail(Remarked(cuts, data), last);
  }

  lemma {:induction false} RestoredMarked(cuts: seq<Cut>, last: seq<Message>, origin: Origin)
    requires WellCut(cuts, last) && cuts != [] && origin.data.from != origin.data.to
    requires CurrentOf(Switches(Shortened(cuts, last))) != Some(origin.data.to)
    requires AnchorArchived(origin, Shortened(cuts, last))
    ensures Restore(Shortened(cuts, last), Some(origin)) == Shortened(Remarked(cuts, origin.data), last)
  {
    hide Switches, AnchorArchived, Restore, InjectionIndex, LastSummary, WithMarker, Remarked;
    var n := |cuts| - 1;
    var pre, summary := ShortOf(cuts[..n]) + cuts[n].kept, cuts[n].summary;
    var messages := Shortened(cuts, last);
    ShortenedTail(cuts, last);
    MarkedTail(cuts, last, origin.data);
    LastNotSummary(pre, summary, last);
    AnchorGone(messages, origin);
    MarkerPlaced(messages, |pre|, origin);
    UpdateRight(pre, [summary] + last, 0, WithMarker(summary, origin.data));
    assert ([summary] + last)[0 := WithMarker(summary, origin.data)] == [WithMarker(summary, origin.data)] + last;
  }

  lemma {:induction false} TailSwitches(pre: seq<Message>, summary: Message, last: seq<Message>)
    requires Switches(last) == []
    ensures Switches(pre + ([summary] + last)) == Switches(pre) + SwitchesIn(summary.parts)
  {
    SwitchesConcat(pre, [summary] + last);
    SwitchesConcat([summary], last);
    SwitchesOne(summary);
    NothingAdded(SwitchesIn(summary.parts));
  }

  /** The marker goes behind all surviving ones. */
  lemma {:induction false} MarkedSwitches(cuts: seq<Cut>, last: seq<Message>, data: Switch)
    requires WellCut(cuts, last) && cuts != [] && Switches(last) == []
    requires ValidTuple(data.from) && ValidTuple(data.to)
    ensures Switches(Shortened(Remarked(cuts, data), last)) == Switches(Shortened(cuts, last)) + [data]
  {
    hide Switches, WithMarker, Remarked;
    var n := |cuts| - 1;
    var pre, summary := ShortOf(cuts[..n]) + cuts[n].kept, cuts[n].summary;
    ShortenedTail(cuts, last);
    MarkedTail(cuts, last, data);
    TailSwitches(pre, summary, last);
    TailSwitches(pre, WithMarker(summary, data), last);
    MarkerIsRead(summary, data);
    NothingAdded(Switches(pre));
    NothingAdded([data]);
  }

  // ---------- when a sequence of compactions is safe ----------

  /** The model a stretch behind the markers `seen` is taken to start on. */
  function Entered(seen: seq<Switch>, all: seq<Switch>, latest: Switch): Tuple {
    if seen != [] then seen[|seen| - 1].to else if all != [] then all[0].from else latest.from
  }

  /** Stretch `j` opens with reasoning, was entered on another model than the latest, and by the markers
      that survive was entered on the latest. */
  predicate HidesForeign(cuts: seq<Cut>, last: seq<Message>, latest: Switch, j: nat)
    requires j <= |cuts|
  {
    && ReasonsBeforeSwitch(Stretch(cuts, last, j))
    && Entered(Switches(ShortOf(cuts[..j])), Switches(Shortened(cuts, last)), latest) == latest.to
    && Entered(Switches(FullOf(cuts[..j])), Switches(Whole(cuts, last)), latest) != latest.to
  }

  predicate IsLatest(data: Switch, switches: seq<Switch>) {
    switches != [] && data == switches[|switches| - 1] && data.from != data.to
    && ValidTuple(data.from) && ValidTuple(data.to)
  }

  /** The switch on record is the transcript's last, and its message is gone unless what is left still ends
      on its model. */
  predicate OnRecord(cuts: seq<Cut>, last: seq<Message>, origin: Origin) {
    && IsLatest(origin.data, Switches(Whole(cuts, last)))
    && (CurrentOf(Switches(Shortened(cuts, last))) == Some(origin.data.to)
        || AnchorArchived(origin, Shortened(cuts, last)))
  }

  lemma {:induction false} EnteredPlain(seen: seq<Switch>, all: seq<Switch>, latest: Switch)
    requires all != []
    ensures OriginOf(seen, all) == Some(Entered(seen, all, latest))
  {
  }

  lemma {:induction false} EnteredRestored(seen: seq<Switch>, all: seq<Switch>, latest: Switch)
    ensures OriginOf(seen, all + [latest]) == Some(Entered(seen, all, latest))
  {
  }

  /** With nothing restored the two descriptions of a leaking stretch agree. */
  lemma {:induction false} PlainStretch(cuts: seq<Cut>, last: seq<Message>, latest: Switch, j: nat)
    requires j <= |cuts| && IsLatest(latest, Switches(Whole(cuts, last)))
    requires CurrentOf(Switches(Shortened(cuts, last))) == Some(latest.to)
    ensures OpensForeign(cuts, cuts, last, j) <==> HidesForeign(cuts, last, latest, j)
  {
    hide Switches, Shortened, Whole, ReasonsBeforeSwitch, OriginOf, Entered;
    EnteredPlain(Switches(ShortOf(cuts[..j])), Switches(Shortened(cuts, last)), latest);
    EnteredPlain(Switches(FullOf(cuts[..j])), Switches(Whole(cuts, last)), latest);
  }

  /** Nor do they differ before the restored marker. */
  lemma {:induction false} MarkedStretch(cuts: seq<Cut>, last: seq<Message>, latest: Switch, j: nat)
    requires WellCut(cuts, last) && Switches(last) == [] && j < |cuts|
    requires IsLatest(latest, Switches(Whole(cuts, last)))
    ensures OpensForeign(cuts, Remarked(cuts, latest), last, j) <==> HidesForeign(cuts, last, latest, j)
  {
    hide Switches, Shortened, Whole, ReasonsBeforeSwitch, OriginOf, Entered, WellCut;
    assert Remarked(cuts, latest)[..j] == cuts[..j];
    MarkedSwitches(cuts, last, latest);
    EnteredRestored(Switches(ShortOf(cuts[..j])), Switches(Shortened(cuts, last)), latest);
    EnteredPlain(Switches(FullOf(cuts[..j])), Switches(Whole(cuts, last)), latest);
  }

  /** Behind the last cut a transcript without further markers is on the latest model. */
  lemma {:induction false} LastStretchCurrent(cuts: seq<Cut>, last: seq<Message>, latest: Switch)
    requires Switches(last) == [] && IsLatest(latest, Switches(Whole(cuts, last)))
    ensures EntersOnCurrent(FullOf(cuts[..|cuts|]), Whole(cuts, last))
    ensures !HidesForeign(cuts, last, latest, |cuts|)
  {
    assert cuts[..|cuts|] == cuts;
    SwitchesConcat(FullOf(cuts), last);
    NothingAdded(Switches(FullOf(cuts)));
  }

  lemma {:induction false} MarkedStretches(cuts: seq<Cut>, last: seq<Message>, latest: Switch, j: nat)
    requires WellCut(cuts, last) && Switches(last) == [] && cuts != [] && j <= |cuts|
    requires IsLatest(latest, Switches(Whole(cuts, last)))
    ensures OpensForeign(cuts, Remarked(cuts, latest), last, j) <==> HidesForeign(cuts, last, latest, j)
  {
    if j < |cuts| {
      MarkedStretch(cuts, last, latest, j);
    } else {
      hide Remarked, Switches, HidesForeign, EntersOnCurrent, IsLatest, WellCut;
      LastStretchCurrent(cuts, last, latest);
    }
  }

  /** However many spans have been archived, restoring the latest switch leaves the transcript on the right
      model, and keeps every other model's reasoning out exactly when no stretch opens with reasoning that
      the surviving markers pass for the latest model's. */
  lemma {:induction false} CompactionsSafeExactly(cuts: seq<Cut>, last: seq<Message>, origin: Origin)
    requires WellCut(cuts, last) && OnRecord(cuts, last, origin)
    ensures var shown := Restore(Shortened(cuts, last), Some(origin));
            && |shown| == |Shortened(cuts, last)|
            && CurrentOf(Switches(shown)) == Some(origin.data.to) == CurrentOf(Switches(Whole(cuts, last)))
            && (KeepsAllForeignOut(shown, cuts, last)
                <==> forall j :: 0 <= j <= |cuts| ==> !HidesForeign(cuts, last, origin.data, j))
  {
    hide Switches, HidesForeign, KeepsAllForeignOut, Restore, Shortened, Whole, AnchorArchived, WellCut, Remarked;
    if CurrentOf(Switches(Shortened(cuts, last))) == Some(origin.data.to) {
      RestoreIdle(Shortened(cuts, last), origin);
      PlainSafe(cuts, last, origin.data);
    } else {
      NothingBehind(cuts, last);
      RestoredMarked(cuts, last, origin);
      MarkedSafe(cuts, last, origin.data);
    }
  }

  lemma {:induction false} PlainSafe(cuts: seq<Cut>, last: seq<Message>, latest: Switch)
    requires IsLatest(latest, Switches(Whole(cuts, last)))
    requires CurrentOf(Switches(Shortened(cuts, last))) == Some(latest.to)
    ensures KeepsAllForeignOut(Shortened(cuts, last), cuts, last)
            <==> forall j :: 0 <= j <= |cuts| ==> !HidesForeign(cuts, last, latest, j)
  {
    hide Switches, KeepsAllForeignOut, OpensForeign, HidesForeign, Shortened, Whole;
    LeaksExactly(cuts, cuts, last);
    forall j: nat | j <= |cuts| ensures OpensForeign(cuts, cuts, last, j) <==> HidesForeign(cuts, last, latest, j) {
      PlainStretch(cuts, last, latest, j);
    }
  }

  lemma {:induction false} MarkedSafe(cuts: seq<Cut>, last: seq<Message>, latest: Switch)
    requires WellCut(cuts, last) && Switches(last) == [] && cuts != []
    requires IsLatest(latest, Switches(Whole(cuts, last)))
    ensures CurrentOf(Switches(Shortened(Remarked(cuts, latest), last))) == Some(latest.to)
    ensures KeepsAllForeignOut(Shortened(Remarked(cuts, latest), last), cuts, last)
            <==> forall j :: 0 <= j <= |cuts| ==> !HidesForeign(cuts, last, latest, j)
  {
    hide Switches, KeepsAllForeignOut, OpensForeign, HidesForeign, Shortened, Whole, WellCut;
    var shown := Remarked(cuts, latest);
    MarkedSwitches(cuts, last, latest);
    LeaksExactly(cuts, shown, last);
    forall j: nat | j <= |cuts| ensures OpensForeign(cuts, shown, last, j) <==> HidesForeign(cuts, last, latest, j) {
      MarkedStretches(cuts, last, latest, j);
    }
  }

  // ---------- sequences that are safe ----------

  /** The spans cut before `p` had no markers, and from the one behind cut `p` on no stretch has any. */
  predicate ArchivedFrom(cuts: seq<Cut>, last: seq<Message>, p: nat)
    requires p < |cuts|
  {
    && (forall i :: 0 <= i < p ==> Switches(cuts[i].span) == [])
    && (forall i :: p < i <= |cuts| ==> Switches(Stretch(cuts, last, i)) == [])
  }

  /** Before the first archived marker nothing is missing. */
  lemma {:induction false} SameBefore(cuts: seq<Cut>, last: seq<Message>, j: nat)
    requires WellCut(cuts, last) && j <= |cuts|
    requires forall i :: 0 <= i < j ==> Switches(cuts[i].span) == []
    ensures Switches(FullOf(cuts[..j])) == Switches(ShortOf(cuts[..j]))
  {
    if j > 0 {
      SameBefore(cuts, last, j - 1);
      assert cuts[..j][..j - 1] == cuts[..j - 1];
      CutSwitches(FullOf(cuts[..j - 1]), cuts[j - 1].kept, cuts[j - 1].span);
      CutSwitches(ShortOf(cuts[..j - 1]), cuts[j - 1].kept, [cuts[j - 1].summary]);
      SwitchesOne(cuts[j - 1].summary);
    }
  }

  lemma {:induction false} CutSwitches(before: seq<Message>, kept: seq<Message>, span: seq<Message>)
    ensures Switches(before + (kept + span)) == Switches(before) + (Switches(kept) + Switches(span))
  {
    SwitchesConcat(before, kept + span);
    SwitchesConcat(kept, span);
  }

  /** Behind cut `p` no marker survives. */
  lemma {:induction false} SilentAfter(cuts: seq<Cut>, last: seq<Message>, p: nat, j: nat)
    requires WellCut(cuts, last) && p < j <= |cuts| && ArchivedFrom(cuts, last, p)
    ensures Switches(ShortOf(cuts[..j])) == Switches(ShortOf(cuts[..p])) + Switches(cuts[p].kept)
  {
    assert cuts[..j][..j - 1] == cuts[..j - 1];
    CutSwitches(ShortOf(cuts[..j - 1]), cuts[j - 1].kept, [cuts[j - 1].summary]);
    SwitchesOne(cuts[j - 1].summary);
    if j > p + 1 {
      SilentAfter(cuts, last, p, j - 1);
      assert Switches(Stretch(cuts, last, j - 1)) == [];
    }
  }

  /** All that survives comes before the first archived marker. */
  lemma {:induction false} SurvivorsFirst(cuts: seq<Cut>, last: seq<Message>, p: nat)
    requires WellCut(cuts, last) && p < |cuts| && ArchivedFrom(cuts, last, p)
    ensures Switches(Shortened(cuts, last)) == Switches(ShortOf(cuts[..p])) + Switches(cuts[p].kept)
    ensures Switches(Shortened(cuts, last)) <= Switches(Whole(cuts, last))
  {
    SilentAfter(cuts, last, p, |cuts|);
    assert cuts[..|cuts|] == cuts;
    SwitchesConcat(ShortOf(cuts), last);
    assert Switches(Stretch(cuts, last, |cuts|)) == [];
    SameBefore(cuts, last, p);
    var rest := FullStretch(cuts, last, p);
    CutSwitches(FullOf(cuts[..p]), cuts[p].kept, rest);
    Regroup(Switches(FullOf(cuts[..p])), Switches(cuts[p].kept), Switches(rest));
  }

  /** Up to the first archived marker each stretch is entered on the same model as before, or else it was
      not taken for the latest. */
  lemma {:induction false} EarlyStretchSafe(cuts: seq<Cut>, last: seq<Message>, latest: Switch, p: nat, j: nat)
    requires WellCut(cuts, last) && p < |cuts| && ArchivedFrom(cuts, last, p) && j <= p
    requires latest.from != latest.to
    ensures !HidesForeign(cuts, last, latest, j)
  {
    hide Switches, FullOf, ShortOf, Whole, Shortened, Stretch, ReasonsBeforeSwitch, WellCut;
    SameBefore(cuts, last, j);
    SurvivorsFirst(cuts, last, p);
  }

  /** When all archived markers were in one span, restoring keeps every foreign reasoning out, whatever
      other spans were archived before or since. */
  lemma {:induction false} OneSpanSafe(cuts: seq<Cut>, last: seq<Message>, origin: Origin, p: nat)
    requires WellCut(cuts, last) && OnRecord(cuts, last, origin)
    requires p < |cuts| && ArchivedFrom(cuts, last, p)
    requires forall i :: p < i < |cuts| ==> Switches(cuts[i].span) == []
    ensures KeepsAllForeignOut(Restore(Shortened(cuts, last), Some(origin)), cuts, last)
  {
    hide Switches, HidesForeign, OnRecord, WellCut, ArchivedFrom, KeepsAllForeignOut, Restore;
    CompactionsSafeExactly(cuts, last, origin);
    LatestDiffers(cuts, last, origin);
    forall j: nat | j <= |cuts| ensures !HidesForeign(cuts, last, origin.data, j) {
      if j <= p {
        EarlyStretchSafe(cuts, last, origin.data, p, j);
      } else {
        LateStretchCurrent(cuts, last, origin.data, p, j);
      }
    }
  }

  lemma {:induction false} LatestDiffers(cuts: seq<Cut>, last: seq<Message>, origin: Origin)
    requires OnRecord(cuts, last, origin)
    ensures IsLatest(origin.data, Switches(Whole(cuts, last))) && origin.data.from != origin.data.to
  {
  }

  /** Behind the only span that had markers the full transcript is on the latest model. */
  lemma {:induction false} LateStretchCurrent(cuts: seq<Cut>, last: seq<Message>, latest: Switch, p: nat, j: nat)
    requires p < j <= |cuts| && ArchivedFrom(cuts, last, p) && IsLatest(latest, Switches(Whole(cuts, last)))
    requires forall i :: p < i < |cuts| ==> Switches(cuts[i].span) == []
    ensures !HidesForeign(cuts, last, latest, j)
  {
    SilentRest(cuts, last, p, j);
  }

  lemma {:induction false} SilentRest(cuts: seq<Cut>, last: seq<Message>, p: nat, j: nat)
    requires p < j <= |cuts| && ArchivedFrom(cuts, last, p)
    requires forall i :: p < i < |cuts| ==> Switches(cuts[i].span) == []
    ensures Switches(FullOf(cuts[..j])) == Switches(Whole(cuts, last))
    decreases |cuts| - j
  {
    if j == |cuts| {
      assert cuts[..j] == cuts;
      SwitchesConcat(FullOf(cuts), last);
      assert Switches(Stretch(cuts, last, j)) == [];
    } else {
      SilentRest(cuts, last, p, j + 1);
      assert cuts[..j + 1][..j] == cuts[..j];
      CutSwitches(FullOf(cuts[..j]), cuts[j].kept, cuts[j].span);
      assert Switches(Stretch(cuts, last, j)) == [];
    }
  }

  /** When the archived markers are the latest ones, in however many spans, and what is left ends on another
      model, so that the marker really is put back, restoring keeps every foreign reasoning out. */
  lemma {:induction false} RestoredIsSafe(cuts: seq<Cut>, last: seq<Message>, origin: Origin, p: nat)
    requires WellCut(cuts, last) && OnRecord(cuts, last, origin)
    requires p < |cuts| && ArchivedFrom(cuts, last, p)
    requires CurrentOf(Switches(Shortened(cuts, last))) != Some(origin.data.to)
    ensures KeepsAllForeignOut(Restore(Shortened(cuts, last), Some(origin)), cuts, last)
  {
    hide Switches, HidesForeign, OnRecord, WellCut, ArchivedFrom, KeepsAllForeignOut, Restore;
    CompactionsSafeExactly(cuts, last, origin);
    LatestDiffers(cuts, last, origin);
    forall j: nat | j <= |cuts| ensures !HidesForeign(cuts, last, origin.data, j) {
      if j <= p {
        EarlyStretchSafe(cuts, last, origin.data, p, j);
      } else {
        LateStretchSafe(cuts, last, origin.data, p, j);
      }
    }
  }

  lemma {:induction false} LateStretchSafe(cuts: seq<Cut>, last: seq<Message>, latest: Switch, p: nat, j: nat)
    requires WellCut(cuts, last) && p < j <= |cuts| && ArchivedFrom(cuts, last, p) && latest.from != latest.to
    requires CurrentOf(Switches(Shortened(cuts, last))) != Some(latest.to)
    ensures !HidesForeign(cuts, last, latest, j)
  {
    hide Switches, FullOf, ShortOf, Whole, Shortened, Stretch, ReasonsBeforeSwitch, ArchivedFrom, WellCut;
    SilentAfter(cuts, last, p, j);
    SurvivorsFirst(cuts, last, p);
  }

  // ---------- a sequence that leaks ----------

  /** The switch to `c` and the one back are archived one after the other; the switch to `b` survives. */
  function TwoCuts(a: Tuple, b: Tuple, c: Tuple): seq<Cut> {
    [Cut([Marked("1", a, b)], [Marked("2", b, c)], Message("s1", true, [])),
     Cut([Thinking("3")], [Marked("4", c, b)], Message("s2", true, []))]
  }

  lemma {:induction false} TwoCutsText(a: Tuple, b: Tuple, c: Tuple)
    ensures var cuts := TwoCuts(a, b, c);
            && FullOf(cuts[..1]) == cuts[0].kept + cuts[0].span
            && ShortOf(cuts[..1]) == cuts[0].kept + [cuts[0].summary]
            && Whole(cuts, []) == cuts[0].kept + cuts[0].span + (cuts[1].kept + cuts[1].span)
            && Shortened(cuts, []) == cuts[0].kept + [cuts[0].summary] + (cuts[1].kept + [cuts[1].summary])
  {
    var cuts := TwoCuts(a, b, c);
    assert cuts[..1][..0] == [] && cuts[..2] == cuts && cuts[..2][..1] == cuts[..1];
    NothingAdded(FullOf(cuts));
    NothingAdded(ShortOf(cuts));
  }

  lemma {:induction false} TwoCutsSwitches(a: Tuple, b: Tuple, c: Tuple)
    requires ValidTuple(a) && ValidTuple(b) && ValidTuple(c)
    ensures var cuts := TwoCuts(a, b, c);
            && Switches(FullOf(cuts[..1])) == [Switch(a, b), Switch(b, c)]
            && Switches(ShortOf(cuts[..1])) == [Switch(a, b)]
            && Switches(Whole(cuts, [])) == [Switch(a, b), Switch(b, c), Switch(c, b)]
            && Switches(Shortened(cuts, [])) == [Switch(a, b)]
  {
    var cuts := TwoCuts(a, b, c);
    TwoCutsText(a, b, c);
    hide Switches, FullOf, ShortOf, Whole, Shortened, Marked;
    MarkedSwitch("1", a, b);
    MarkedSwitch("2", b, c);
    MarkedSwitch("4", c, b);
    ThinkingSilent("3");
    NoMarker(Message("s1", true, []));
    NoMarker(Message("s2", true, []));
    SwitchesConcat(cuts[0].kept, cuts[0].span);
    SwitchesConcat(cuts[0].kept, [cuts[0].summary]);
    CutSwitches(cuts[0].kept + cuts[0].span, cuts[1].kept, cuts[1].span);
    CutSwitches(cuts[0].kept + [cuts[0].summary], cuts[1].kept, [cuts[1].summary]);
  }

  lemma {:induction false} NoMarker(m: Message)
    requires m.parts == []
    ensures Switches([m]) == []
  {
    SwitchesOne(m);
  }

  lemma {:induction false} ThinkingFirst(id: string)
    ensures ReasonsBeforeSwitch([Thinking(id)])
  {
    ThinkingSilent(id);
    assert [Thinking(id)][..1] == [Thinking(id)];
    assert Seen([Thinking(id)], 1) == [] && HasReasoning([Thinking(id)][0]);
  }

  /** A thread on `b` that went to `c` and back: with both switches archived the surviving one still names
      `b`, so nothing is restored and the reasoning `c` wrote in between is kept as if it were `b`'s. */
  lemma {:induction false} SkippedRestoreLeaks(a: Tuple, b: Tuple, c: Tuple)
    requires ValidTuple(a) && ValidTuple(b) && ValidTuple(c) && a != b && b != c
    ensures var cuts, origin := TwoCuts(a, b, c), Origin(Switch(c, b), Some("4"));
            && WellCut(cuts, []) && OnRecord(cuts, [], origin)
            && Restore(Shortened(cuts, []), Some(origin)) == Shortened(cuts, [])
            && !KeepsAllForeignOut(Shortened(cuts, []), cuts, [])
  {
    hide Switches, KeepsAllForeignOut, FullOf, ShortOf, Whole, Shortened, ReasonsBeforeSwitch;
    var cuts, origin := TwoCuts(a, b, c), Origin(Switch(c, b), Some("4"));
    TwoCutsSwitches(a, b, c);
    ThinkingFirst("3");
    assert HidesForeign(cuts, [], origin.data, 1);
    CompactionsSafeExactly(cuts, [], origin);
    RestoreIdle(Shortened(cuts, []), origin);
  }
}
