/**
 Putting an archived switch marker back (restoreModelSwitchMarker in
 src/agent/cross-model-reasoning-sanitize.ts), and what that guarantees after a compaction.
 */
module ModelSwitchRestore {
  import opened Wrappers
  import opened ModelSegments

  function FindMessage(messages: seq<Message>, id: string): (k: nat)
    ensures k <= |messages|
    ensures forall j :: 0 <= j < k ==> messages[j].id != id
    ensures k < |messages| ==> messages[k].id == id
  {
    if messages == [] then 0
    else if messages[0].id == id then 0
    else 1 + FindMessage(messages[1..], id)
  }

  function LastSummary(messages: seq<Message>): (k: Option<nat>)
    ensures k.None? ==> forall j :: 0 <= j < |messages| ==> !messages[j].isSummary
    ensures k.Some? ==> k.value < |messages| && messages[k.value].isSummary
    ensures k.Some? ==> forall j :: k.value < j < |messages| ==> !messages[j].isSummary
  {
    if messages == [] then None
    else if messages[|messages| - 1].isSummary then Some(|messages| - 1)
    else LastSummary(messages[..|messages| - 1])
  }

  /** The anchor message if it is still there, else the last summary. An empty anchor is no anchor. */
  function InjectionIndex(messages: seq<Message>, anchor: Option<string>): (k: Option<nat>)
    ensures k.Some? ==> k.value < |messages|
  {
    if anchor.Some? && anchor.value != "" && FindMessage(messages, anchor.value) < |messages|
    then Some(FindMessage(messages, anchor.value))
    else LastSummary(messages)
  }

  method ScanInjectionIndex(messages: seq<Message>, anchor: Option<string>) returns (k: Option<nat>)
    ensures k == InjectionIndex(messages, anchor)
  {
    if anchor.Some? && anchor.value != "" {
      var at := FindMessage(messages, anchor.value);
      if at < |messages| { return Some(at); }
    }
    var i := |messages|;
    assert messages[..i] == messages;
    while i > 0
      invariant 0 <= i <= |messages|
      invariant LastSummary(messages) == LastSummary(messages[..i])
    {
      i := i - 1;
      if messages[i].isSummary { return Some(i); }
      assert messages[..i + 1][..i] == messages[..i];
    }
    return None;
  }

  function Marker(data: Switch): Part {
    Part(SwitchData(data), None)
  }

  function WithMarker(m: Message, data: Switch): Message {
    m.(parts := [Marker(data)] + m.parts)
  }

  function Restore(messages: seq<Message>, origin: Option<Origin>): (r: seq<Message>)
    ensures |r| == |messages|
  {
    if origin.None? || origin.value.data.from == origin.value.data.to then messages
    else if CurrentOf(Switches(messages)) == Some(origin.value.data.to) then messages
    else
      var k := InjectionIndex(messages, origin.value.anchorMessageId);
      if k.None? then messages else messages[k.value := WithMarker(messages[k.value], origin.value.data)]
  }

  /** Each switch starts where the previous one ended and really changes the model. */
  predicate Chained(switches: seq<Switch>) {
    && (forall k :: 0 <= k < |switches| ==>
          switches[k].from != switches[k].to && ValidTuple(switches[k].from) && ValidTuple(switches[k].to))
    && (forall k :: 0 < k < |switches| ==> switches[k].from == switches[k - 1].to)
  }

  lemma {:induction false} SwitchesInFront(p: Part, parts: seq<Part>)
    ensures SwitchesIn([p] + parts) == SwitchesIn([p]) + SwitchesIn(parts)
  {
    if parts == [] {
      assert [p] + parts == [p];
    } else {
      var n := |parts| - 1;
      SwitchesInFront(p, parts[..n]);
      SwitchesInEnd([p] + parts[..n], parts[n]);
      assert [p] + parts == [p] + parts[..n] + [parts[n]];
    }
  }

  lemma {:induction false} MarkerIsRead(m: Message, data: Switch)
    requires ValidTuple(data.from) && ValidTuple(data.to)
    ensures SwitchesIn(WithMarker(m, data).parts) == [data] + SwitchesIn(m.parts)
    ensures HasReasoning(WithMarker(m, data)) ==> HasReasoning(m)
  {
    SwitchesInFront(Marker(data), m.parts);
    SwitchesInEnd([], Marker(data));
    assert [] + [Marker(data)] == [Marker(data)];
    var parts := WithMarker(m, data).parts;
    forall k | 0 <= k < |parts| && parts[k].content.Reasoning? ensures HasReasoning(m) {
      assert m.parts[k - 1] == parts[k];
    }
  }

  lemma {:induction false} SwitchesAround(messages: seq<Message>, k: nat)
    requires k < |messages|
    ensures Switches(messages) == Switches(messages[..k]) + SwitchesIn(messages[k].parts) + Switches(messages[k + 1..])
  {
    SwitchesEnd(messages[..k], messages[k]);
    SwitchesConcat(messages[..k] + [messages[k]], messages[k + 1..]);
    SplitAt(messages, k);
  }

  lemma {:induction false} SplitAt<T>(s: seq<T>, k: nat)
    requires k < |s|
    ensures s == s[..k] + [s[k]] + s[k + 1..]
  {
  }

  /** Putting a marker into a stretch that has none makes it the stretch's only one. */
  lemma {:induction false} InjectIntoSilence(messages: seq<Message>, k: nat, data: Switch)
    requires k < |messages| && Switches(messages) == []
    requires ValidTuple(data.from) && ValidTuple(data.to)
    ensures Switches(messages[k := WithMarker(messages[k], data)]) == [data]
  {
    var r := messages[k := WithMarker(messages[k], data)];
    SwitchesAround(messages, k);
    SwitchesAround(r, k);
    MarkerIsRead(messages[k], data);
    assert r[..k] == messages[..k] && r[k + 1..] == messages[k + 1..];
  }

  /** Restoring puts back a marker whose write was lost, exactly where it was. */
  lemma {:induction false} RestoreUndoesLostMarker(messages: seq<Message>, p: nat, origin: Origin)
    requires p < |messages| && forall k :: 0 <= k < p ==> messages[k].id != messages[p].id
    requires messages[p].id != "" && origin.anchorMessageId == Some(messages[p].id)
    requires origin.data.from != origin.data.to
    requires CurrentOf(Switches(messages)) != Some(origin.data.to)
    ensures Restore(messages, Some(origin)) == messages[p := WithMarker(messages[p], origin.data)]
  {
    assert FindMessage(messages, messages[p].id) == p;
  }

  predicate HasAnchor(messages: seq<Message>, anchor: Option<string>) {
    anchor.Some? && anchor.value != "" && exists k :: 0 <= k < |messages| && messages[k].id == anchor.value
  }

  /** Restoring puts the marker in front of one message's parts and changes nothing else: the first message
      with the anchor's id, or the last summary where there is none. It does so unless the switch changed
      nothing, the transcript is already on its model, or there is no such message. */
  lemma {:induction false} RestoreExactly(messages: seq<Message>, origin: Origin) returns (at: Option<nat>)
    ensures at.Some? <==>
              && origin.data.from != origin.data.to && CurrentOf(Switches(messages)) != Some(origin.data.to)
              && (HasAnchor(messages, origin.anchorMessageId)
                  || exists k :: 0 <= k < |messages| && messages[k].isSummary)
    ensures at.None? ==> Restore(messages, Some(origin)) == messages
    ensures at.Some? ==>
              && at.value < |messages|
              && Restore(messages, Some(origin)) ==
                 messages[at.value := messages[at.value].(
                   parts := [Part(SwitchData(origin.data), None)] + messages[at.value].parts)]
              && if HasAnchor(messages, origin.anchorMessageId)
                 then messages[at.value].id == origin.anchorMessageId.value
                      && forall j :: 0 <= j < at.value ==> messages[j].id != origin.anchorMessageId.value
                 else messages[at.value].isSummary
                      && forall j :: at.value < j < |messages| ==> !messages[j].isSummary
  {
    var moved := origin.data.from != origin.data.to && CurrentOf(Switches(messages)) != Some(origin.data.to);
    at := if moved then InjectionIndex(messages, origin.anchorMessageId) else None;
    if HasAnchor(messages, origin.anchorMessageId) {
      assert FindMessage(messages, origin.anchorMessageId.value) < |messages|;
    }
  }

  // ---------- compaction ----------

  /** Whether a message keeps its reasoning, from the markers seen up to it and all markers. */
  predicate KeptFrom(seen: seq<Switch>, all: seq<Switch>, reasons: bool) {
    reasons && (all == [] || OriginOf(seen, all) == CurrentOf(all))
  }

  predicate KeepsReasoning(messages: seq<Message>, i: nat)
    requires i < |messages|
  {
    KeptFrom(Seen(messages, i + 1), Switches(messages), HasReasoning(messages[i]))
  }

  /** `KeepsReasoning` is what the sanitizer does. */
  lemma {:induction false} KeepsReasoningExact(messages: seq<Message>, i: nat)
    requires i < |messages|
    ensures HasReasoning(Sanitize(messages)[i]) <==> KeepsReasoning(messages, i)
  {
    SanitizeExact(messages, i);
  }

  /** Compaction replaces `span` by one summary message. */
  function Compacted(pre: seq<Message>, summary: Message, post: seq<Message>): seq<Message> {
    pre + ([summary] + post)
  }

  function Full(pre: seq<Message>, span: seq<Message>, post: seq<Message>): seq<Message> {
    pre + (span + post)
  }

  /** Where a surviving message of the compacted transcript sits in the full one. */
  function FullIndex(i: nat, pre: seq<Message>, span: seq<Message>): (k: nat)
    requires i != |pre|
  {
    if i < |pre| then i else i - 1 + |span|
  }

  /** No surviving message keeps reasoning that sanitizing the full transcript would have dropped. */
  predicate KeepsForeignOut(kept: seq<Message>, pre: seq<Message>, span: seq<Message>, post: seq<Message>)
    requires |kept| == |pre| + 1 + |post|
  {
    forall i :: 0 <= i < |kept| && i != |pre| && KeepsReasoning(kept, i) ==>
      KeepsReasoning(Full(pre, span, post), FullIndex(i, pre, span))
  }

  predicate AnchorArchived(origin: Origin, messages: seq<Message>) {
    origin.anchorMessageId.None? || forall k :: 0 <= k < |messages| ==> messages[k].id != origin.anchorMessageId.value
  }

  lemma {:induction false} InjectionAtSummary(pre: seq<Message>, tail: seq<Message>, origin: Origin) returns (q: nat)
    requires tail != [] && tail[0].isSummary && AnchorArchived(origin, pre + tail)
    ensures q < |tail| && InjectionIndex(pre + tail, origin.anchorMessageId) == Some(|pre| + q)
  {
    var messages := pre + tail;
    assert messages[|pre|] == tail[0];
    var k := LastSummary(messages);
    assert k.Some? && k.value >= |pre|;
    q := k.value - |pre|;
  }

  /** What restoring does to the stretch from the summary on. */
  lemma {:induction false} RestoredTail(pre: seq<Message>, tail: seq<Message>, origin: Origin)
    returns (tail': seq<Message>)
    requires tail != [] && tail[0].isSummary && Switches(tail) == []
    requires ValidTuple(origin.data.from) && ValidTuple(origin.data.to) && origin.data.from != origin.data.to
    requires AnchorArchived(origin, pre + tail)
    requires CurrentOf(Switches(pre)) != Some(origin.data.to)
    ensures Restore(pre + tail, Some(origin)) == pre + tail'
    ensures |tail'| == |tail| && Switches(tail') == [origin.data]
    ensures forall k :: 0 <= k < |tail| ==> (HasReasoning(tail'[k]) ==> HasReasoning(tail[k]))
  {
    hide Switches, HasReasoning, Restore, InjectionIndex, AnchorArchived;
    SwitchesConcat(pre, tail);
    var q := InjectionAtSummary(pre, tail, origin);
    tail' := tail[q := WithMarker(tail[q], origin.data)];
    InjectIntoSilence(tail, q, origin.data);
    MarkerIsRead(tail[q], origin.data);
    UpdateRight(pre, tail, q, WithMarker(tail[q], origin.data));
    MarkerPlaced(pre + tail, |pre| + q, origin);
  }

  lemma {:induction false} MarkerPlaced(messages: seq<Message>, k: nat, origin: Origin)
    requires InjectionIndex(messages, origin.anchorMessageId) == Some(k) && origin.data.from != origin.data.to
    requires CurrentOf(Switches(messages)) != Some(origin.data.to)
    ensures Restore(messages, Some(origin)) == messages[k := WithMarker(messages[k], origin.data)]
  {
  }

  lemma {:induction false} UpdateRight<T>(a: seq<T>, b: seq<T>, q: nat, x: T)
    requires q < |b|
    ensures (a + b)[|a| + q] == b[q]
    ensures (a + b)[|a| + q := x] == a + b[q := x]
  {
  }

  /** What has been seen starts like the whole. */
  lemma {:induction false} SeenStartsWhole(a: seq<Message>, i: nat)
    requires i < |a|
    ensures Seen(a, i + 1) != [] ==> Switches(a) != []
  {
    SwitchesPrefix(a, i + 1);
  }

  lemma {:induction false} KeepsLeft(a: seq<Message>, b: seq<Message>, i: nat)
    requires i < |a|
    ensures KeepsReasoning(a + b, i) <==> KeptFrom(Seen(a, i + 1), Switches(a) + Switches(b), HasReasoning(a[i]))
  {
    SwitchesConcat(a, b);
    assert (a + b)[..i + 1] == a[..i + 1];
  }

  lemma {:induction false} KeepsRight(a: seq<Message>, b: seq<Message>, j: nat)
    requires j < |b|
    ensures KeepsReasoning(a + b, |a| + j)
            <==> KeptFrom(Switches(a) + Seen(b, j + 1), Switches(a) + Switches(b), HasReasoning(b[j]))
  {
    SwitchesConcat(a, b);
    SwitchesConcat(a, b[..j + 1]);
    assert (a + b)[..|a| + j + 1] == a + b[..j + 1];
    assert (a + b)[|a| + j] == b[j];
  }

  /** Before the span, restoring the last switch is at least as strict as the full transcript. */
  lemma {:induction false} PreSideSafe(before: seq<Switch>, seen: seq<Switch>, rest: seq<Switch>, tail: seq<Switch>,
        reasons: bool)
    requires rest != [] && rest[|rest| - 1].from != rest[|rest| - 1].to
    requires tail == [rest[|rest| - 1]] || (tail == [] && CurrentOf(before) == CurrentOf(rest))
    requires seen != [] ==> before != []
    ensures KeptFrom(seen, before + tail, reasons) ==> KeptFrom(seen, before + rest, reasons)
    ensures before != [] ==> (KeptFrom(seen, before + tail, reasons) <==> KeptFrom(seen, before + rest, reasons))
  {
  }

  lemma {:induction false} NoneSeen(post: seq<Message>, j: nat)
    requires j < |post| && Switches(post) == []
    ensures Seen(post, j + 1) == []
  {
    assert post[..|post|] == post;
    SeenNothing(post, |post|);
  }

  lemma {:induction false} LastSwitch(span: seq<Message>, post: seq<Message>)
    requires Switches(span) != [] && Switches(post) == []
    ensures Switches(span + post) == Switches(span)
  {
    SwitchesConcat(span, post);
  }

  /** The compacted transcript after restoring: the part before the span, then a tail whose only
      marker, if it needs one, is the archived one. */
  lemma {:induction false} RestoredShape(pre: seq<Message>, post: seq<Message>, summary: Message, origin: Origin)
    returns (tail': seq<Message>)
    requires Switches(post) == [] && summary.isSummary && SwitchesIn(summary.parts) == []
    requires ValidTuple(origin.data.from) && ValidTuple(origin.data.to) && origin.data.from != origin.data.to
    requires AnchorArchived(origin, Compacted(pre, summary, post))
    ensures Restore(Compacted(pre, summary, post), Some(origin)) == pre + tail'
    ensures |tail'| == 1 + |post|
    ensures Switches(tail') == [origin.data]
            || (Switches(tail') == [] && CurrentOf(Switches(pre)) == Some(origin.data.to))
    ensures forall k :: 0 <= k < |post| ==> (HasReasoning(tail'[1 + k]) ==> HasReasoning(post[k]))
  {
    hide Switches, HasReasoning;
    var tail := [summary] + post;
    SwitchesConcat([summary], post);
    SwitchesOne(summary);
    SwitchesConcat(pre, tail);
    tail' := tail;
    if CurrentOf(Switches(pre)) != Some(origin.data.to) {
      tail' := RestoredTail(pre, tail, origin);
    }
    forall k | 0 <= k < |post| ensures HasReasoning(tail'[1 + k]) ==> HasReasoning(post[k]) {
      assert tail[1 + k] == post[k];
    }
  }

  /** Once the latest switch is archived behind a summary and restored, no surviving message keeps
      reasoning that the full transcript would have dropped, and both agree on the current model.
      While an earlier marker survives, the messages before the span are treated just as before. */
  lemma {:induction false} CompactionKeepsForeignReasoningOut(
    pre: seq<Message>, span: seq<Message>, post: seq<Message>, summary: Message, origin: Origin)
    requires Switches(span) != [] && Switches(post) == []
    requires Chained(Switches(span))
    requires summary.isSummary && SwitchesIn(summary.parts) == []
    requires origin.data == Switches(span)[|Switches(span)| - 1]
    requires AnchorArchived(origin, Compacted(pre, summary, post))
    ensures var restored := Restore(Compacted(pre, summary, post), Some(origin));
            && |restored| == |pre| + 1 + |post|
            && CurrentOf(Switches(restored)) == CurrentOf(Switches(Full(pre, span, post)))
            && KeepsForeignOut(restored, pre, span, post)
            && (Switches(pre) != [] ==> forall i :: 0 <= i < |pre| ==>
                  (KeepsReasoning(restored, i) <==> KeepsReasoning(Full(pre, span, post), i)))
  {
    LastValid(Switches(span));
    var tail' := RestoredShape(pre, post, summary, origin);
    LastSwitch(span, post);
    RestoredSafe(pre, span, post, tail', origin.data);
  }

  lemma {:induction false} LastValid(switches: seq<Switch>)
    requires switches != [] && Chained(switches)
    ensures var last := switches[|switches| - 1];
            ValidTuple(last.from) && ValidTuple(last.to) && last.from != last.to
  {
  }

  /** Whatever tail carries at most the archived marker, behind the same messages as before. */
  lemma {:induction false} RestoredSafe(
    pre: seq<Message>, span: seq<Message>, post: seq<Message>, tail: seq<Message>, last: Switch)
    requires Switches(span) != [] && Switches(post) == [] && last.from != last.to
    requires Switches(span + post) != [] && Switches(span + post)[|Switches(span + post)| - 1] == last
    requires Switches(tail) == [last] || (Switches(tail) == [] && CurrentOf(Switches(pre)) == Some(last.to))
    requires |tail| == 1 + |post|
    requires forall k :: 0 <= k < |post| ==> (HasReasoning(tail[1 + k]) ==> HasReasoning(post[k]))
    ensures CurrentOf(Switches(pre + tail)) == CurrentOf(Switches(Full(pre, span, post)))
    ensures KeepsForeignOut(pre + tail, pre, span, post)
    ensures Switches(pre) != [] ==> forall i :: 0 <= i < |pre| ==>
              (KeepsReasoning(pre + tail, i) <==> KeepsReasoning(Full(pre, span, post), i))
  {
    hide KeepsReasoning, Switches, HasReasoning;
    RestoredCurrent(pre, span + post, tail, last);
    ForeignStaysOut(pre, span, post, tail, last);
    PreUnchanged(pre, span + post, tail, last);
  }

  lemma {:induction false} PreUnchanged(pre: seq<Message>, rest: seq<Message>, tail: seq<Message>, last: Switch)
    requires last.from != last.to
    requires Switches(rest) != [] && Switches(rest)[|Switches(rest)| - 1] == last
    requires Switches(tail) == [last] || (Switches(tail) == [] && CurrentOf(Switches(pre)) == Some(last.to))
    ensures Switches(pre) != [] ==> forall i :: 0 <= i < |pre| ==>
              (KeepsReasoning(pre + tail, i) <==> KeepsReasoning(pre + rest, i))
  {
    forall i | 0 <= i < |pre| && Switches(pre) != []
      ensures KeepsReasoning(pre + tail, i) <==> KeepsReasoning(pre + rest, i)
    {
      PreKept(pre, rest, tail, last, i);
    }
  }

  lemma {:induction false} ForeignStaysOut(
    pre: seq<Message>, span: seq<Message>, post: seq<Message>, tail: seq<Message>, last: Switch)
    requires Switches(span) != [] && Switches(post) == [] && last.from != last.to
    requires Switches(span + post) != [] && Switches(span + post)[|Switches(span + post)| - 1] == last
    requires Switches(tail) == [last] || (Switches(tail) == [] && CurrentOf(Switches(pre)) == Some(last.to))
    requires |tail| == 1 + |post|
    requires forall k :: 0 <= k < |post| ==> (HasReasoning(tail[1 + k]) ==> HasReasoning(post[k]))
    ensures KeepsForeignOut(pre + tail, pre, span, post)
  {
    forall i | 0 <= i < |pre + tail| && i != |pre| && KeepsReasoning(pre + tail, i)
      ensures KeepsReasoning(Full(pre, span, post), FullIndex(i, pre, span))
    {
      if i < |pre| {
        PreKept(pre, span + post, tail, last, i);
      } else {
        TailKept(pre, span, post, tail, i);
      }
    }
  }

  lemma {:induction false} TailKept(
    pre: seq<Message>, span: seq<Message>, post: seq<Message>, tail: seq<Message>, i: nat)
    requires Switches(span) != [] && Switches(post) == []
    requires |tail| == 1 + |post| && |pre| < i < |pre + tail|
    requires forall k :: 0 <= k < |post| ==> (HasReasoning(tail[1 + k]) ==> HasReasoning(post[k]))
    requires KeepsReasoning(pre + tail, i)
    ensures KeepsReasoning(Full(pre, span, post), FullIndex(i, pre, span))
  {
    hide Switches, HasReasoning;
    var j := i - 1 - |pre|;
    assert (pre + tail)[i] == tail[1 + j];
    PostKept(pre, span, post, j);
  }

  lemma {:induction false} RestoredCurrent(pre: seq<Message>, rest: seq<Message>, tail: seq<Message>, last: Switch)
    requires Switches(rest) != [] && Switches(rest)[|Switches(rest)| - 1] == last
    requires Switches(tail) == [last] || (Switches(tail) == [] && CurrentOf(Switches(pre)) == Some(last.to))
    ensures CurrentOf(Switches(pre + tail)) == CurrentOf(Switches(pre + rest))
  {
    SwitchesConcat(pre, rest);
    SwitchesConcat(pre, tail);
  }

  lemma {:induction false} PreKept(pre: seq<Message>, rest: seq<Message>, tail: seq<Message>, last: Switch, i: nat)
    requires i < |pre| && last.from != last.to
    requires Switches(rest) != [] && Switches(rest)[|Switches(rest)| - 1] == last
    requires Switches(tail) == [last] || (Switches(tail) == [] && CurrentOf(Switches(pre)) == Some(last.to))
    ensures KeepsReasoning(pre + tail, i) ==> KeepsReasoning(pre + rest, i)
    ensures Switches(pre) != [] ==> (KeepsReasoning(pre + tail, i) <==> KeepsReasoning(pre + rest, i))
  {
    KeepsLeft(pre, rest, i);
    KeepsLeft(pre, tail, i);
    SeenStartsWhole(pre, i);
    PreSideSafe(Switches(pre), Seen(pre, i + 1), Switches(rest), Switches(tail), HasReasoning(pre[i]));
  }

  lemma {:induction false} KeepsAfterTwo(a: seq<Message>, b: seq<Message>, c: seq<Message>, j: nat)
    requires j < |c|
    ensures KeepsReasoning(a + (b + c), |a| + |b| + j)
            <==> KeptFrom(Switches(a) + Switches(b) + Seen(c, j + 1), Switches(a) + Switches(b) + Switches(c),
                          HasReasoning(c[j]))
  {
    Regroup(a, b, c);
    SwitchesConcat(a, b);
    KeepsRightOf(a + b, c, j, Switches(a) + Switches(b), a + (b + c), |a| + |b| + j);
  }

  lemma {:induction false} KeepsRightOf(
    front: seq<Message>, c: seq<Message>, j: nat, before: seq<Switch>, whole: seq<Message>, i: nat)
    requires j < |c| && before == Switches(front) && whole == front + c && i == |front| + j
    ensures KeepsReasoning(whole, i) <==> KeptFrom(before + Seen(c, j + 1), before + Switches(c), HasReasoning(c[j]))
  {
    KeepsRight(front, c, j);
  }

  /** After the last switch everything belongs to the current model. */
  lemma {:induction false} PostKept(pre: seq<Message>, span: seq<Message>, post: seq<Message>, j: nat)
    requires j < |post| && Switches(span) != [] && Switches(post) == []
    requires HasReasoning(post[j])
    ensures KeepsReasoning(pre + (span + post), |pre| + |span| + j)
  {
    KeepsAfterTwo(pre, span, post, j);
    NoneSeen(post, j);
    KeptAtEnd(Switches(pre), Switches(span));
  }

  lemma {:induction false} KeptAtEnd(before: seq<Switch>, hidden: seq<Switch>)
    requires hidden != []
    ensures KeptFrom(before + hidden + [], before + hidden + [], true)
  {
  }

  // ---------- compaction that archives only an earlier switch ----------

  predicate Reasons(messages: seq<Message>) {
    exists i :: 0 <= i < |messages| && HasReasoning(messages[i])
  }

  predicate ReasonsBeforeSwitch(messages: seq<Message>) {
    exists j :: 0 <= j < |messages| && Seen(messages, j + 1) == [] && HasReasoning(messages[j])
  }

  /** Nothing before the span told its messages from the model in use, and the next switch resumes it. */
  predicate HidesBefore(pre: seq<Message>, span: seq<Message>, post: seq<Message>)
    requires Switches(span) != [] && Switches(post) != []
  {
    var current := Switches(post)[|Switches(post)| - 1].to;
    && Switches(pre) == [] && Reasons(pre)
    && Switches(span)[0].from != current && Switches(post)[0].from == current
  }

  /** What follows the span ran on another model, but the last switch before it led to the one in use. */
  predicate HidesAfter(pre: seq<Message>, span: seq<Message>, post: seq<Message>)
    requires Switches(span) != [] && Switches(post) != []
  {
    var current := Switches(post)[|Switches(post)| - 1].to;
    && Switches(pre) != [] && ReasonsBeforeSwitch(post)
    && Switches(pre)[|Switches(pre)| - 1].to == current && Switches(post)[0].from != current
  }

  /** The archived switches were the only thing telling a foreign stretch from the current model. */
  predicate HidesForeignStretch(pre: seq<Message>, span: seq<Message>, post: seq<Message>)
    requires Switches(span) != [] && Switches(post) != []
  {
    HidesBefore(pre, span, post) || HidesAfter(pre, span, post)
  }

  /** One surviving position: foreign in the full transcript but current in the compacted one. */
  predicate Leaks(pre: seq<Message>, span: seq<Message>, post: seq<Message>, summary: Message, i: nat)
    requires i < |Compacted(pre, summary, post)| && i != |pre|
  {
    && KeepsReasoning(Compacted(pre, summary, post), i)
    && !KeepsReasoning(Full(pre, span, post), FullIndex(i, pre, span))
  }

  lemma {:induction false} PreLeak(pre: seq<Message>, span: seq<Message>, post: seq<Message>, summary: Message, i: nat)
    requires i < |pre| && Switches(span) != [] && Switches(post) != []
    requires SwitchesIn(summary.parts) == []
    ensures Leaks(pre, span, post, summary, i) <==>
              && Switches(pre) == [] && HasReasoning(pre[i])
              && Switches(span)[0].from != CurrentOf(Switches(post)).value
              && Switches(post)[0].from == CurrentOf(Switches(post)).value
  {
    hide KeepsReasoning, Switches, HasReasoning, KeptFrom;
    SwitchesConcat(span, post);
    SwitchesConcat([summary], post);
    SwitchesOne(summary);
    KeepsLeft(pre, span + post, i);
    KeepsLeft(pre, [summary] + post, i);
    SeenStartsWhole(pre, i);
    PreLeakSwitches(Switches(pre), Seen(pre, i + 1), Switches(span), Switches(post), HasReasoning(pre[i]));
    assert [] + Switches(post) == Switches(post);
  }

  lemma {:induction false} PreLeakSwitches(before: seq<Switch>, seen: seq<Switch>, hidden: seq<Switch>,
        later: seq<Switch>, reasons: bool)
    requires hidden != [] && later != [] && (seen != [] ==> before != [])
    ensures KeptFrom(seen, before + later, reasons) && !KeptFrom(seen, before + (hidden + later), reasons) <==>
              && before == [] && reasons
              && hidden[0].from != CurrentOf(later).value && later[0].from == CurrentOf(later).value
  {
  }

  lemma {:induction false} PostLeakSwitches(before: seq<Switch>, hidden: seq<Switch>, seen: seq<Switch>,
        later: seq<Switch>, reasons: bool)
    requires hidden != [] && later != [] && hidden[|hidden| - 1].to == later[0].from
    ensures KeptFrom(before + seen, before + later, reasons)
            && !KeptFrom(before + hidden + seen, before + hidden + later, reasons) <==>
              && before != [] && seen == [] && reasons
              && before[|before| - 1].to == CurrentOf(later).value && later[0].from != CurrentOf(later).value
  {
    if seen == [] {
      assert before + seen == before && before + hidden + seen == before + hidden;
    }
  }

  lemma {:induction false} PostLeak(pre: seq<Message>, span: seq<Message>, post: seq<Message>, summary: Message, j: nat)
    requires j < |post| && Switches(span) != [] && Switches(post) != []
    requires SwitchesIn(summary.parts) == []
    requires Switches(span)[|Switches(span)| - 1].to == Switches(post)[0].from
    ensures Leaks(pre, span, post, summary, |pre| + 1 + j) <==>
              && Switches(pre) != [] && Seen(post, j + 1) == [] && HasReasoning(post[j])
              && Switches(pre)[|Switches(pre)| - 1].to == CurrentOf(Switches(post)).value
              && Switches(post)[0].from != CurrentOf(Switches(post)).value
  {
    hide KeepsReasoning, Switches, HasReasoning;
    KeepsAfterTwo(pre, span, post, j);
    KeepsAfterTwo(pre, [summary], post, j);
    SwitchesOne(summary);
    NothingAdded(Switches(pre));
    PostLeakSwitches(Switches(pre), Switches(span), Seen(post, j + 1), Switches(post), HasReasoning(post[j]));
  }

  /** With later switches surviving there is nothing to restore, and the compacted transcript is
      safe exactly when the archived switches did not hide a foreign stretch. */
  lemma {:induction false} EarlierSwitchArchived(
    pre: seq<Message>, span: seq<Message>, post: seq<Message>, summary: Message, origin: Origin)
    requires Switches(span) != [] && Switches(post) != []
    requires Chained(Switches(Full(pre, span, post)))
    requires SwitchesIn(summary.parts) == []
    requires origin.data == Switches(post)[|Switches(post)| - 1]
    ensures var restored := Restore(Compacted(pre, summary, post), Some(origin));
            && restored == Compacted(pre, summary, post)
            && (KeepsForeignOut(restored, pre, span, post) <==> !HidesForeignStretch(pre, span, post))
  {
    hide KeepsReasoning, Switches, HasReasoning, HidesForeignStretch, KeepsForeignOut, Restore;
    ChainedJoint(pre, span, post);
    NothingToRestore(pre, post, summary, origin);
    if HidesForeignStretch(pre, span, post) {
      HiddenLeaks(pre, span, post, summary);
    } else {
      NothingHiddenSafe(pre, span, post, summary);
    }
  }

  lemma {:induction false} LeakTold(
    pre: seq<Message>, span: seq<Message>, post: seq<Message>, summary: Message, i: nat)
    requires i < |Compacted(pre, summary, post)| && i != |pre| && Leaks(pre, span, post, summary, i)
    ensures !KeepsForeignOut(Compacted(pre, summary, post), pre, span, post)
  {
  }

  lemma {:induction false} ChainedJoint(pre: seq<Message>, span: seq<Message>, post: seq<Message>)
    requires Switches(span) != [] && Switches(post) != []
    requires Chained(Switches(Full(pre, span, post)))
    ensures Switches(span)[|Switches(span)| - 1].to == Switches(post)[0].from
  {
    SwitchesConcat(span, post);
    SwitchesConcat(pre, span + post);
    var all, k := Switches(Full(pre, span, post)), |Switches(pre)| + |Switches(span)|;
    assert all[k] == Switches(post)[0] && all[k - 1] == Switches(span)[|Switches(span)| - 1];
  }

  lemma {:induction false} NothingToRestore(pre: seq<Message>, post: seq<Message>, summary: Message, origin: Origin)
    requires Switches(post) != [] && origin.data == Switches(post)[|Switches(post)| - 1]
    ensures Restore(Compacted(pre, summary, post), Some(origin)) == Compacted(pre, summary, post)
  {
    LastOfTwo([summary], post);
    LastOfTwo(pre, [summary] + post);
    RestoreIdle(Compacted(pre, summary, post), origin);
  }

  lemma {:induction false} LastOfTwo(a: seq<Message>, b: seq<Message>)
    requires Switches(b) != []
    ensures Switches(a + b) != [] && CurrentOf(Switches(a + b)) == CurrentOf(Switches(b))
  {
    SwitchesConcat(a, b);
  }

  lemma {:induction false} RestoreIdle(messages: seq<Message>, origin: Origin)
    requires CurrentOf(Switches(messages)) == Some(origin.data.to)
    ensures Restore(messages, Some(origin)) == messages
  {
  }

  lemma {:induction false} LeakBefore(
    pre: seq<Message>, span: seq<Message>, post: seq<Message>, summary: Message, i: nat)
    requires Switches(span) != [] && Switches(post) != [] && SwitchesIn(summary.parts) == []
    requires i < |pre| && Leaks(pre, span, post, summary, i)
    ensures HidesBefore(pre, span, post)
  {
    hide KeepsReasoning, Switches, HasReasoning, Leaks;
    PreLeak(pre, span, post, summary, i);
  }

  lemma {:induction false} LeakAfter(
    pre: seq<Message>, span: seq<Message>, post: seq<Message>, summary: Message, j: nat)
    requires Switches(span) != [] && Switches(post) != [] && SwitchesIn(summary.parts) == []
    requires Switches(span)[|Switches(span)| - 1].to == Switches(post)[0].from
    requires j < |post| && Leaks(pre, span, post, summary, |pre| + 1 + j)
    ensures HidesAfter(pre, span, post)
  {
    hide KeepsReasoning, Switches, HasReasoning, Leaks;
    PostLeak(pre, span, post, summary, j);
  }

  lemma {:induction false} NothingHiddenSafe(
    pre: seq<Message>, span: seq<Message>, post: seq<Message>, summary: Message)
    requires Switches(span) != [] && Switches(post) != [] && SwitchesIn(summary.parts) == []
    requires Switches(span)[|Switches(span)| - 1].to == Switches(post)[0].from
    requires !HidesForeignStretch(pre, span, post)
    ensures KeepsForeignOut(Compacted(pre, summary, post), pre, span, post)
  {
    hide KeepsReasoning, Switches, HasReasoning, HidesBefore, HidesAfter;
    var kept := Compacted(pre, summary, post);
    forall i | 0 <= i < |kept| && i != |pre| && KeepsReasoning(kept, i)
      ensures KeepsReasoning(Full(pre, span, post), FullIndex(i, pre, span))
    {
      if Leaks(pre, span, post, summary, i) {
        if i < |pre| {
          LeakBefore(pre, span, post, summary, i);
        } else {
          LeakAfter(pre, span, post, summary, i - |pre| - 1);
        }
      }
    }
  }

  lemma {:induction false} FirstReasoning(messages: seq<Message>) returns (i: nat)
    requires Reasons(messages)
    ensures i < |messages| && HasReasoning(messages[i])
  {
    i :| i < |messages| && HasReasoning(messages[i]);
  }

  lemma {:induction false} ReasonedBeforeSwitch(messages: seq<Message>) returns (j: nat)
    requires ReasonsBeforeSwitch(messages)
    ensures j < |messages| && Seen(messages, j + 1) == [] && HasReasoning(messages[j])
  {
    j :| j < |messages| && Seen(messages, j + 1) == [] && HasReasoning(messages[j]);
  }

  lemma {:induction false} HiddenBeforeLeaks(
    pre: seq<Message>, span: seq<Message>, post: seq<Message>, summary: Message) returns (i: nat)
    requires Switches(span) != [] && Switches(post) != [] && SwitchesIn(summary.parts) == []
    requires HidesBefore(pre, span, post)
    ensures i < |pre| && Leaks(pre, span, post, summary, i)
  {
    i := FirstReasoning(pre);
    PreLeak(pre, span, post, summary, i);
  }

  lemma {:induction false} HiddenAfterLeaks(
    pre: seq<Message>, span: seq<Message>, post: seq<Message>, summary: Message) returns (j: nat)
    requires Switches(span) != [] && Switches(post) != [] && SwitchesIn(summary.parts) == []
    requires Switches(span)[|Switches(span)| - 1].to == Switches(post)[0].from
    requires HidesAfter(pre, span, post)
    ensures j < |post| && Leaks(pre, span, post, summary, |pre| + 1 + j)
  {
    j := ReasonedBeforeSwitch(post);
    PostLeak(pre, span, post, summary, j);
  }

  lemma {:induction false} HiddenLeaks(
    pre: seq<Message>, span: seq<Message>, post: seq<Message>, summary: Message)
    requires Switches(span) != [] && Switches(post) != [] && SwitchesIn(summary.parts) == []
    requires Switches(span)[|Switches(span)| - 1].to == Switches(post)[0].from
    requires HidesForeignStretch(pre, span, post)
    ensures !KeepsForeignOut(Compacted(pre, summary, post), pre, span, post)
  {
    hide KeepsReasoning, Switches, HasReasoning, HidesBefore, HidesAfter, Leaks;
    if HidesBefore(pre, span, post) {
      var i := HiddenBeforeLeaks(pre, span, post, summary);
      LeakTold(pre, span, post, summary, i);
    } else {
      var j := HiddenAfterLeaks(pre, span, post, summary);
      LeakTold(pre, span, post, summary, |pre| + 1 + j);
    }
  }

  // ---------- a thread that leaks ----------

  function Marked(id: string, from: Tuple, to: Tuple): Message {
    Message(id, false, [Marker(Switch(from, to))])
  }

  function Thinking(id: string): Message {
    Message(id, false, [Part(Reasoning("thought"), None)])
  }

  lemma {:induction false} MarkedSwitch(id: string, from: Tuple, to: Tuple)
    requires ValidTuple(from) && ValidTuple(to)
    ensures Switches([Marked(id, from, to)]) == [Switch(from, to)]
  {
    var m := Marked(id, from, to);
    SwitchesOne(m);
    SwitchesInEnd([], m.parts[0]);
    assert [] + [m.parts[0]] == m.parts;
  }

  lemma {:induction false} ThinkingSilent(id: string)
    ensures Switches([Thinking(id)]) == [] && HasReasoning(Thinking(id)) && Reasons([Thinking(id)])
  {
    var m := Thinking(id);
    SwitchesOne(m);
    SwitchesInEnd([], m.parts[0]);
    assert [] + [m.parts[0]] == m.parts;
    assert m.parts[0].content.Reasoning?;
    assert HasReasoning([m][0]);
  }

  lemma {:induction false} TwoMarked(b: Tuple, c: Tuple)
    requires ValidTuple(b) && ValidTuple(c)
    ensures Switches([Marked("3", b, c), Marked("4", c, b)]) == [Switch(b, c), Switch(c, b)]
  {
    MarkedSwitch("3", b, c);
    MarkedSwitch("4", c, b);
    SwitchesConcat([Marked("3", b, c)], [Marked("4", c, b)]);
    assert [Marked("3", b, c)] + [Marked("4", c, b)] == [Marked("3", b, c), Marked("4", c, b)];
  }

  lemma {:induction false} LeakChained(a: Tuple, b: Tuple, c: Tuple)
    requires ValidTuple(a) && ValidTuple(b) && ValidTuple(c) && a != b && b != c
    ensures var pre, span, post := [Thinking("1")], [Marked("2", a, b)], [Marked("3", b, c), Marked("4", c, b)];
            Switches(Full(pre, span, post)) == [Switch(a, b), Switch(b, c), Switch(c, b)]
            && Chained(Switches(Full(pre, span, post)))
  {
    var pre, span, post := [Thinking("1")], [Marked("2", a, b)], [Marked("3", b, c), Marked("4", c, b)];
    ThinkingSilent("1");
    MarkedSwitch("2", a, b);
    TwoMarked(b, c);
    ThreeConcat(pre, span, post, [], [Switch(a, b)], [Switch(b, c), Switch(c, b)]);
    ThreeChained(a, b, c);
  }

  lemma {:induction false} ThreeConcat(pre: seq<Message>, span: seq<Message>, post: seq<Message>,
                                       p: seq<Switch>, q: seq<Switch>, r: seq<Switch>)
    requires Switches(pre) == p && Switches(span) == q && Switches(post) == r
    ensures Switches(Full(pre, span, post)) == p + (q + r)
  {
    SwitchesConcat(span, post);
    SwitchesConcat(pre, span + post);
  }

  lemma {:induction false} ThreeChained(a: Tuple, b: Tuple, c: Tuple)
    requires ValidTuple(a) && ValidTuple(b) && ValidTuple(c) && a != b && b != c
    ensures [] + ([Switch(a, b)] + [Switch(b, c), Switch(c, b)]) == [Switch(a, b), Switch(b, c), Switch(c, b)]
    ensures Chained([Switch(a, b), Switch(b, c), Switch(c, b)])
  {
  }

  /** A thread that went from `a` to `b`, on to `c` and back: archiving the first switch makes the
      reasoning `a` wrote look like `b`'s, so it survives where the full transcript would lose it. */
  lemma {:induction false} EarlierSwitchLeaks(a: Tuple, b: Tuple, c: Tuple)
    requires ValidTuple(a) && ValidTuple(b) && ValidTuple(c) && a != b && b != c
    ensures var pre, span, post := [Thinking("1")], [Marked("2", a, b)], [Marked("3", b, c), Marked("4", c, b)];
            var summary := Message("s", true, []);
            var restored := Restore(Compacted(pre, summary, post), Some(Origin(Switch(c, b), Some("4"))));
            |restored| == |pre| + 1 + |post| && !KeepsForeignOut(restored, pre, span, post)
  {
    var pre, span, post := [Thinking("1")], [Marked("2", a, b)], [Marked("3", b, c), Marked("4", c, b)];
    ThinkingSilent("1");
    MarkedSwitch("2", a, b);
    TwoMarked(b, c);
    LeakChained(a, b, c);
    EarlierSwitchArchived(pre, span, post, Message("s", true, []), Origin(Switch(c, b), Some("4")));
  }
}
