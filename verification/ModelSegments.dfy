/**
 Which model produced which message (src/agent/cross-model-reasoning-sanitize.ts).

 Switch markers in the transcript split it into segments, one per (provider, model) tuple. The
 sanitizer drops the reasoning of every segment but the current one, and a restore step puts a
 marker back when compaction has archived it.
 */
module ModelSegments {
  import opened Wrappers

  datatype Tuple = Tuple(provider: string, model: string)

  datatype Switch = Switch(from: Tuple, to: Tuple)

  datatype Content =
    | Text(text: string)
    | Reasoning(text: string)
    | SwitchData(data: Switch)
    | Other(tag: string)

  datatype Part = Part(content: Content, metadata: Option<map<string, string>>)

  datatype Message = Message(id: string, isSummary: bool, parts: seq<Part>)

  datatype Origin = Origin(data: Switch, anchorMessageId: Option<string>)

  // ---------- markers ----------

  predicate ValidTuple(t: Tuple) {
    t.provider != "" && t.model != ""
  }

  /** A marker with an empty provider or model is not read as one. */
  function ReadSwitch(part: Part): Option<Switch> {
    if part.content.SwitchData? && ValidTuple(part.content.data.from) && ValidTuple(part.content.data.to)
    then Some(part.content.data) else None
  }

  function SwitchesIn(parts: seq<Part>): seq<Switch> {
    if parts == [] then []
    else
      var last := ReadSwitch(parts[|parts| - 1]);
      SwitchesIn(parts[..|parts| - 1]) + (if last.Some? then [last.value] else [])
  }

  function Switches(messages: seq<Message>): seq<Switch> {
    if messages == [] then []
    else Switches(messages[..|messages| - 1]) + SwitchesIn(messages[|messages| - 1].parts)
  }

  /** The tuple a position belongs to, from the markers seen up to it and all markers. */
  function OriginOf(seen: seq<Switch>, all: seq<Switch>): Option<Tuple> {
    if seen != [] then Some(seen[|seen| - 1].to)
    else if all != [] then Some(all[0].from)
    else None
  }

  function CurrentOf(all: seq<Switch>): Option<Tuple> {
    if all == [] then None else Some(all[|all| - 1].to)
  }

  /** Markers in the first `n` messages. */
  function Seen(messages: seq<Message>, n: nat): seq<Switch>
    requires n <= |messages|
  {
    Switches(messages[..n])
  }

  function OriginAt(messages: seq<Message>, i: nat): Option<Tuple>
    requires i < |messages|
  {
    OriginOf(Seen(messages, i + 1), Switches(messages))
  }

  lemma {:induction false} SwitchesInEnd(parts: seq<Part>, p: Part)
    ensures SwitchesIn(parts + [p]) == SwitchesIn(parts) + (if ReadSwitch(p).Some? then [ReadSwitch(p).value] else [])
  {
    assert (parts + [p])[..|parts|] == parts;
  }

  lemma {:induction false} SwitchesEnd(a: seq<Message>, m: Message)
    ensures Switches(a + [m]) == Switches(a) + SwitchesIn(m.parts)
  {
    assert (a + [m])[..|a|] == a;
  }

  lemma {:induction false} SwitchesConcat(a: seq<Message>, b: seq<Message>)
    ensures Switches(a + b) == Switches(a) + Switches(b)
  {
    if b == [] {
      assert a + b == a;
    } else {
      var front, last := b[..|b| - 1], b[|b| - 1];
      SwitchesConcat(a, front);
      SwitchesEnd(a + front, last);
      SwitchesEnd(front, last);
      assert b == front + [last];
      Regroup(a, front, [last]);
      Regroup(Switches(a), Switches(front), SwitchesIn(last.parts));
    }
  }

  lemma {:induction false} SwitchesOne(m: Message)
    ensures Switches([m]) == SwitchesIn(m.parts)
  {
    assert [m][..0] == [];
    assert Switches([m][..0]) == [];
  }

  /** What `segmentTuples` knows after the first `n` messages, having seen `seen`. */
  ghost predicate Segmented(messages: seq<Message>, byIndex: seq<Option<Tuple>>, n: nat, seen: seq<Switch>)
    requires n <= |messages|
  {
    && |byIndex| == |messages|
    && (forall i :: 0 <= i < n ==> byIndex[i] == OriginOf(Seen(messages, i + 1), seen))
    && (forall i :: n <= i < |messages| ==> byIndex[i] == None)
  }

  /** The first marker also tells what everything before it ran on. */
  method BackFill(byIndex: array<Option<Tuple>>, index: nat, from: Tuple)
    requires index <= byIndex.Length
    modifies byIndex
    ensures forall i :: 0 <= i < index ==> byIndex[i] == Some(from)
    ensures forall i :: index <= i < byIndex.Length ==> byIndex[i] == old(byIndex[i])
  {
    for i := 0 to index
      invariant forall j :: 0 <= j < i ==> byIndex[j] == Some(from)
      invariant forall j :: i <= j < byIndex.Length ==> byIndex[j] == old(byIndex[j])
    {
      byIndex[i] := Some(from);
    }
  }

  lemma {:induction false} SeenNext(messages: seq<Message>, index: nat)
    requires index < |messages|
    ensures Seen(messages, index + 1) == Seen(messages, index) + SwitchesIn(messages[index].parts)
  {
    assert messages[..index + 1][..index] == messages[..index];
  }

  /** A later marker changes nothing about earlier positions; the first one back-fills them. */
  lemma {:induction false} MarkerSeen(messages: seq<Message>, was: seq<Option<Tuple>>, now: seq<Option<Tuple>>,
                                      index: nat, seen: seq<Switch>, marker: Switch)
    requires index <= |messages| && Segmented(messages, was, index, seen) && |now| == |was|
    requires seen == [] ==> Seen(messages, index) == [] && forall i :: 0 <= i < index ==> now[i] == Some(marker.from)
    requires seen != [] ==> forall i :: 0 <= i < index ==> now[i] == was[i]
    requires forall i :: index <= i < |now| ==> now[i] == was[i]
    ensures Segmented(messages, now, index, seen + [marker])
  {
    if seen == [] {
      SeenNothing(messages, index);
    }
  }

  lemma {:induction false} MessageDone(messages: seq<Message>, was: seq<Option<Tuple>>, index: nat, seen: seq<Switch>)
    requires index < |messages| && Segmented(messages, was, index, seen) && seen == Seen(messages, index + 1)
    ensures Segmented(messages, was[index := CurrentOf(seen)], index + 1, seen)
  {
  }

  /** The loop's three variables after the markers `seen`. */
  ghost predicate Scanned(messages: seq<Message>, byIndex: seq<Option<Tuple>>, index: nat, seen: seq<Switch>,
                          active: Option<Tuple>, sawMarker: bool)
    requires index <= |messages|
  {
    && Segmented(messages, byIndex, index, seen) && Seen(messages, index) <= seen
    && active == CurrentOf(seen) && (sawMarker <==> seen != [])
  }

  /** One marker of message `index`: the first in the thread back-fills, a later one changes nothing. */
  method ReadMarker(messages: seq<Message>, index: nat, byIndex: array<Option<Tuple>>,
                    ghost seen: seq<Switch>, active0: Option<Tuple>, sawMarker0: bool, marker: Switch)
    returns (active: Option<Tuple>, sawMarker: bool)
    requires index <= |messages| && Scanned(messages, byIndex[..], index, seen, active0, sawMarker0)
    modifies byIndex
    ensures Scanned(messages, byIndex[..], index, seen + [marker], active, sawMarker)
  {
    ghost var was := byIndex[..];
    if !sawMarker0 {
      BackFill(byIndex, index, marker.from);
    }
    MarkerSeen(messages, was, byIndex[..], index, seen, marker);
    active, sawMarker := Some(marker.to), true;
  }

  /** What the parts `parts[..p]` add to the markers seen before the message. */
  lemma {:induction false} PartRead(parts: seq<Part>, p: nat)
    requires p < |parts|
    ensures var marker := ReadSwitch(parts[p]);
            SwitchesIn(parts[..p + 1]) == SwitchesIn(parts[..p]) + (if marker.Some? then [marker.value] else [])
  {
    assert parts[..p + 1] == parts[..p] + [parts[p]];
    SwitchesInEnd(parts[..p], parts[p]);
  }

  method VisitParts(messages: seq<Message>, index: nat, byIndex: array<Option<Tuple>>,
                    active0: Option<Tuple>, sawMarker0: bool)
    returns (active: Option<Tuple>, sawMarker: bool)
    requires index < |messages|
    requires Scanned(messages, byIndex[..], index, Seen(messages, index), active0, sawMarker0)
    modifies byIndex
    ensures Scanned(messages, byIndex[..], index, Seen(messages, index) + SwitchesIn(messages[index].parts),
                    active, sawMarker)
  {
    active, sawMarker := active0, sawMarker0;
    var parts := messages[index].parts;
    ghost var seen := Seen(messages, index);
    for p := 0 to |parts|
      invariant seen == Seen(messages, index) + SwitchesIn(parts[..p])
      invariant Scanned(messages, byIndex[..], index, seen, active, sawMarker)
    {
      PartRead(parts, p);
      var marker := ReadSwitch(parts[p]);
      if marker.Some? {
        active, sawMarker := ReadMarker(messages, index, byIndex, seen, active, sawMarker, marker.value);
        seen := seen + [marker.value];
      }
    }
    assert parts[..|parts|] == parts;
  }

  method VisitMessage(messages: seq<Message>, index: nat, byIndex: array<Option<Tuple>>,
                      active0: Option<Tuple>, sawMarker0: bool)
    returns (active: Option<Tuple>, sawMarker: bool)
    requires index < |messages|
    requires Scanned(messages, byIndex[..], index, Seen(messages, index), active0, sawMarker0)
    modifies byIndex
    ensures Scanned(messages, byIndex[..], index + 1, Seen(messages, index + 1), active, sawMarker)
  {
    active, sawMarker := VisitParts(messages, index, byIndex, active0, sawMarker0);
    SeenNext(messages, index);
    MessageDone(messages, byIndex[..], index, Seen(messages, index + 1));
    ghost var was := byIndex[..];
    byIndex[index] := active;
    assert byIndex[..] == was[index := active];
  }

  /** `segmentTuples`: one pass that back-fills everything before the first marker. */
  method SegmentTuples(messages: seq<Message>) returns (byIndex: array<Option<Tuple>>, current: Option<Tuple>)
    ensures fresh(byIndex) && byIndex.Length == |messages|
    ensures forall i :: 0 <= i < |messages| ==> byIndex[i] == OriginAt(messages, i)
    ensures current == CurrentOf(Switches(messages))
  {
    byIndex := new Option<Tuple>[|messages|](_ => None);
    var active: Option<Tuple> := None;
    var sawMarker := false;
    for index := 0 to |messages|
      invariant Scanned(messages, byIndex[..], index, Seen(messages, index), active, sawMarker)
    {
      active, sawMarker := VisitMessage(messages, index, byIndex, active, sawMarker);
    }
    assert messages[..|messages|] == messages;
    current := active;
  }

  lemma {:induction false} SwitchesPrefix(messages: seq<Message>, n: nat)
    requires n <= |messages|
    ensures Seen(messages, n) + Switches(messages[n..]) == Switches(messages)
  {
    SwitchesConcat(messages[..n], messages[n..]);
    assert messages[..n] + messages[n..] == messages;
  }

  lemma {:induction false} SeenNothing(messages: seq<Message>, n: nat)
    requires n <= |messages| && Seen(messages, n) == []
    ensures forall k :: 0 <= k <= n ==> Seen(messages, k) == []
  {
    forall k | 0 <= k <= n ensures Seen(messages, k) == [] {
      SwitchesPrefix(messages[..n], k);
      assert messages[..n][..k] == messages[..k];
    }
  }

  // ---------- the sanitizer ----------

  function DropReasoning(parts: seq<Part>): seq<Part> {
    if parts == [] then []
    else
      var last := parts[|parts| - 1];
      DropReasoning(parts[..|parts| - 1]) + (if last.content.Reasoning? then [] else [last])
  }

  /** Remove one provider's namespace; an emptied record disappears. */
  function StripProvider(part: Part, provider: string): Part {
    if part.metadata.None? || provider !in part.metadata.value then part
    else
      var rest := part.metadata.value - {provider};
      part.(metadata := if rest == map[] then None else Some(rest))
  }

  function StripAll(parts: seq<Part>, provider: string): seq<Part> {
    seq(|parts|, i requires 0 <= i < |parts| => StripProvider(parts[i], provider))
  }

  function CleanMessage(m: Message, origin: Option<Tuple>, current: Tuple): Message {
    if origin.None? || origin.value == current then m
    else
      var kept := DropReasoning(m.parts);
      if |kept| == |m.parts| then m else m.(parts := StripAll(kept, origin.value.provider))
  }

  function Sanitize(messages: seq<Message>): (r: seq<Message>)
    ensures |r| == |messages|
  {
    var current := CurrentOf(Switches(messages));
    if current.None? then messages
    else seq(|messages|, i requires 0 <= i < |messages| =>
               CleanMessage(messages[i], OriginAt(messages, i), current.value))
  }

  method SanitizeMessage(m: Message, origin: Option<Tuple>, current: Tuple) returns (cleaned: Message, changed: bool)
    ensures cleaned == CleanMessage(m, origin, current)
    ensures !changed ==> cleaned == m
  {
    cleaned, changed := m, false;
    if origin.None? || origin.value == current { return; }
    var kept := DropReasoning(m.parts);
    if |kept| != |m.parts| {
      cleaned, changed := m.(parts := StripAll(kept, origin.value.provider)), true;
    }
  }

  method SanitizeEach(messages: seq<Message>, origins: seq<Option<Tuple>>, current: Tuple)
    returns (next: seq<Message>, changed: bool)
    requires |origins| == |messages|
    ensures |next| == |messages|
    ensures forall i :: 0 <= i < |messages| ==> next[i] == CleanMessage(messages[i], origins[i], current)
    ensures !changed ==> forall i :: 0 <= i < |messages| ==> next[i] == messages[i]
  {
    changed := false;
    next := [];
    for index := 0 to |messages|
      invariant |next| == index
      invariant forall i :: 0 <= i < index ==> next[i] == CleanMessage(messages[i], origins[i], current)
      invariant !changed ==> forall i :: 0 <= i < index ==> next[i] == messages[i]
    {
      var cleaned, replaced := SanitizeMessage(messages[index], origins[index], current);
      changed := changed || replaced;
      next := next + [cleaned];
    }
  }

  method SanitizeCrossModelReasoning(messages: seq<Message>) returns (r: seq<Message>)
    ensures r == Sanitize(messages)
  {
    var byIndex, current := SegmentTuples(messages);
    if current.None? { return messages; }
    var next, changed := SanitizeEach(messages, byIndex[..], current.value);
    SanitizedElementwise(messages, next);
    r := if changed then next else messages;
  }

  lemma {:induction false} SanitizedElementwise(messages: seq<Message>, r: seq<Message>)
    requires |r| == |messages| && CurrentOf(Switches(messages)).Some?
    requires forall i :: 0 <= i < |messages| ==>
               r[i] == CleanMessage(messages[i], OriginAt(messages, i), CurrentOf(Switches(messages)).value)
    ensures r == Sanitize(messages)
  {
  }

  predicate HasReasoning(m: Message) {
    exists k :: 0 <= k < |m.parts| && m.parts[k].content.Reasoning?
  }

  /** The message is not foreign: the thread never switched, or it belongs to the current tuple. */
  predicate IsCurrent(messages: seq<Message>, i: nat)
    requires i < |messages|
  {
    CurrentOf(Switches(messages)).None? || OriginAt(messages, i) == CurrentOf(Switches(messages))
  }

  lemma {:induction false} DropReasoningFacts(parts: seq<Part>)
    ensures |DropReasoning(parts)| <= |parts|
    ensures forall k :: 0 <= k < |DropReasoning(parts)| ==> !DropReasoning(parts)[k].content.Reasoning?
    ensures |DropReasoning(parts)| == |parts| <==> forall k :: 0 <= k < |parts| ==> !parts[k].content.Reasoning?
  {
    if parts != [] {
      var front := parts[..|parts| - 1];
      DropReasoningFacts(front);
      assert forall k :: 0 <= k < |front| ==> front[k] == parts[k];
    }
  }

  lemma {:induction false} DropKeepsSwitches(parts: seq<Part>)
    ensures SwitchesIn(DropReasoning(parts)) == SwitchesIn(parts)
  {
    if parts != [] {
      var front, last := parts[..|parts| - 1], parts[|parts| - 1];
      DropKeepsSwitches(front);
      if last.content.Reasoning? {
        assert DropReasoning(parts) == DropReasoning(front);
        assert SwitchesIn(parts) == SwitchesIn(front);
      } else {
        SwitchesInEnd(DropReasoning(front), last);
      }
    }
  }

  lemma {:induction false} StripKeepsSwitches(parts: seq<Part>, provider: string)
    ensures SwitchesIn(StripAll(parts, provider)) == SwitchesIn(parts)
  {
    if parts != [] {
      var front, last := parts[..|parts| - 1], parts[|parts| - 1];
      StripKeepsSwitches(front, provider);
      assert StripAll(parts, provider) == StripAll(front, provider) + [StripProvider(last, provider)];
      SwitchesInEnd(StripAll(front, provider), StripProvider(last, provider));
      assert ReadSwitch(StripProvider(last, provider)) == ReadSwitch(last);
    }
  }

  lemma {:induction false} CleanFacts(m: Message, origin: Option<Tuple>, current: Tuple)
    ensures SwitchesIn(CleanMessage(m, origin, current).parts) == SwitchesIn(m.parts)
    ensures origin.None? || origin.value == current ==> CleanMessage(m, origin, current) == m
    ensures origin.Some? && origin.value != current ==> !HasReasoning(CleanMessage(m, origin, current))
    ensures !HasReasoning(m) ==> CleanMessage(m, origin, current) == m
  {
    DropReasoningFacts(m.parts);
    DropKeepsSwitches(m.parts);
    if origin.Some? {
      StripKeepsSwitches(DropReasoning(m.parts), origin.value.provider);
    }
  }

  lemma {:induction false} SameSwitches(a: seq<Message>, b: seq<Message>)
    requires |a| == |b|
    requires forall i :: 0 <= i < |a| ==> SwitchesIn(a[i].parts) == SwitchesIn(b[i].parts)
    ensures Switches(a) == Switches(b)
  {
    if a != [] {
      SameSwitches(a[..|a| - 1], b[..|b| - 1]);
    }
  }

  /** Sanitizing never changes where a segment begins or which one is current. */
  lemma {:induction false} SanitizeKeepsSegments(messages: seq<Message>, i: nat)
    requires i < |messages|
    ensures Switches(Sanitize(messages)) == Switches(messages)
    ensures OriginAt(Sanitize(messages), i) == OriginAt(messages, i)
  {
    var s := Sanitize(messages);
    var current := CurrentOf(Switches(messages));
    if current.Some? {
      forall k | 0 <= k < |messages| ensures SwitchesIn(s[k].parts) == SwitchesIn(messages[k].parts) {
        CleanFacts(messages[k], OriginAt(messages, k), current.value);
      }
    }
    SameSwitches(s, messages);
    SameSwitches(s[..i + 1], messages[..i + 1]);
  }

  /** Reasoning survives exactly in the messages of the current tuple; those stay untouched. */
  lemma {:induction false} SanitizeExact(messages: seq<Message>, i: nat)
    requires i < |messages|
    ensures IsCurrent(messages, i) ==> Sanitize(messages)[i] == messages[i]
    ensures HasReasoning(Sanitize(messages)[i]) <==> HasReasoning(messages[i]) && IsCurrent(messages, i)
  {
    if Switches(messages) != [] {
      CleanFacts(messages[i], OriginAt(messages, i), CurrentOf(Switches(messages)).value);
    }
  }

  lemma {:induction false} SanitizedAt(messages: seq<Message>, i: nat, current: Tuple)
    requires i < |messages| && CurrentOf(Switches(messages)) == Some(current)
    ensures Sanitize(messages)[i] == CleanMessage(messages[i], OriginAt(messages, i), current)
  {
  }

  // ---------- what becomes of a foreign message ----------

  /** Parts of the first `n` that are not reasoning. */
  function Visible(parts: seq<Part>, n: nat): nat
    requires n <= |parts|
  {
    if n == 0 then 0 else Visible(parts, n - 1) + (if parts[n - 1].content.Reasoning? then 0 else 1)
  }

  lemma {:induction false} VisibleGrows(parts: seq<Part>, k: nat, n: nat)
    requires k <= n <= |parts|
    ensures Visible(parts, k) <= Visible(parts, n)
  {
    if k < n {
      VisibleGrows(parts, k, n - 1);
    }
  }

  lemma {:induction false} VisibleFront(parts: seq<Part>, n: nat)
    requires n < |parts|
    ensures Visible(parts[..|parts| - 1], n) == Visible(parts, n)
  {
    if n > 0 {
      VisibleFront(parts, n - 1);
    }
  }

  /** Dropping reasoning keeps every other part, in order. */
  lemma {:induction false} DropKeepsOrder(parts: seq<Part>, k: nat)
    ensures |DropReasoning(parts)| == Visible(parts, |parts|)
    ensures k < |parts| && !parts[k].content.Reasoning? ==>
              Visible(parts, k) < |DropReasoning(parts)| && DropReasoning(parts)[Visible(parts, k)] == parts[k]
  {
    if parts != [] {
      var n := |parts| - 1;
      DropKeepsOrder(parts[..n], k);
      VisibleFront(parts, n);
      if k < n {
        VisibleFront(parts, k);
        VisibleGrows(parts, k, n);
      }
    }
  }

  /** One provider's entry is gone, every other is as it was, and a record left empty is gone too. */
  predicate EntryRemoved(was: Option<map<string, string>>, now: Option<map<string, string>>, provider: string) {
    if was.None? || provider !in was.value then now == was
    else if was.value.Keys == {provider} then now == None
    else
      && now.Some? && now.value.Keys == was.value.Keys - {provider}
      && forall k :: k in now.value ==> now.value[k] == was.value[k]
  }

  lemma {:induction false} StripRemovesEntry(part: Part, provider: string)
    ensures StripProvider(part, provider).content == part.content
    ensures EntryRemoved(part.metadata, StripProvider(part, provider).metadata, provider)
  {
    if part.metadata.Some? && provider in part.metadata.value {
      var rest := part.metadata.value - {provider};
      assert rest == map[] <==> rest.Keys == {};
      assert rest.Keys == {} <==> part.metadata.value.Keys == {provider};
    }
  }

  /** The messages the sanitizer changes: reasoning written by another tuple than the current one. */
  predicate ForeignReasoning(messages: seq<Message>, i: nat)
    requires i < |messages|
  {
    && Switches(messages) != [] && HasReasoning(messages[i])
    && OriginAt(messages, i) != CurrentOf(Switches(messages))
  }

  lemma {:induction false} ForeignCleaned(messages: seq<Message>, i: nat) returns (provider: string)
    requires i < |messages| && ForeignReasoning(messages, i)
    ensures OriginAt(messages, i).Some? && provider == OriginAt(messages, i).value.provider
    ensures Sanitize(messages)[i] == messages[i].(parts := StripAll(DropReasoning(messages[i].parts), provider))
  {
    provider := OriginAt(messages, i).value.provider;
    DropReasoningFacts(messages[i].parts);
    SanitizedAt(messages, i, CurrentOf(Switches(messages)).value);
  }

  /** A foreign message with reasoning keeps exactly its other parts, in order and with their content; none
      of them mentions its provider any more, and what other providers stored stays. */
  lemma {:induction false} ForeignParts(messages: seq<Message>, i: nat, k: nat)
    requires i < |messages| && ForeignReasoning(messages, i)
    ensures Sanitize(messages)[i].id == messages[i].id && Sanitize(messages)[i].isSummary == messages[i].isSummary
    ensures |Sanitize(messages)[i].parts| == Visible(messages[i].parts, |messages[i].parts|)
    ensures OriginAt(messages, i).Some?
    ensures k < |messages[i].parts| && !messages[i].parts[k].content.Reasoning? ==>
              var at := Visible(messages[i].parts, k);
              && at < |Sanitize(messages)[i].parts|
              && Sanitize(messages)[i].parts[at].content == messages[i].parts[k].content
              && EntryRemoved(messages[i].parts[k].metadata, Sanitize(messages)[i].parts[at].metadata,
                              OriginAt(messages, i).value.provider)
  {
    hide Sanitize, OriginAt, Switches, CurrentOf, DropReasoning, StripProvider, EntryRemoved;
    var provider := ForeignCleaned(messages, i);
    DropKeepsOrder(messages[i].parts, k);
    if k < |messages[i].parts| && !messages[i].parts[k].content.Reasoning? {
      StripRemovesEntry(messages[i].parts[k], provider);
    }
  }

  /** Every other message passes through untouched. */
  lemma {:induction false} OthersUntouched(messages: seq<Message>, i: nat)
    requires i < |messages| && !ForeignReasoning(messages, i)
    ensures Sanitize(messages)[i] == messages[i]
  {
    if Switches(messages) != [] {
      SanitizedAt(messages, i, CurrentOf(Switches(messages)).value);
      CleanFacts(messages[i], OriginAt(messages, i), CurrentOf(Switches(messages)).value);
    }
  }

  // ---------- which marker decides ----------

  /** Part `p` of message `k` is a marker, both of whose tuples name a provider and a model. */
  predicate MarkerAt(messages: seq<Message>, k: nat, p: nat, data: Switch) {
    && k < |messages| && p < |messages[k].parts| && messages[k].parts[p].content == SwitchData(data)
    && data.from.provider != "" && data.from.model != "" && data.to.provider != "" && data.to.model != ""
  }

  predicate Before(k: nat, p: nat, l: nat, q: nat) {
    k < l || (k == l && p < q)
  }

  /** No marker lies between two places, the second excluded. */
  ghost predicate NoMarkerFrom(messages: seq<Message>, k: nat, p: nat, n: nat) {
    forall l: nat, q: nat, data :: Before(k, p, l, q) && l < n ==> !MarkerAt(messages, l, q, data)
  }

  ghost predicate NoMarkerUntil(messages: seq<Message>, k: nat, p: nat) {
    forall l: nat, q: nat, data :: Before(l, q, k, p) ==> !MarkerAt(messages, l, q, data)
  }

  lemma {:induction false} NoSwitchIn(parts: seq<Part>)
    ensures SwitchesIn(parts) == [] <==> forall p :: 0 <= p < |parts| ==> ReadSwitch(parts[p]).None?
  {
    if parts != [] {
      var front := parts[..|parts| - 1];
      NoSwitchIn(front);
      assert forall p :: 0 <= p < |front| ==> front[p] == parts[p];
    }
  }

  lemma {:induction false} LastIn(parts: seq<Part>) returns (p: nat)
    requires SwitchesIn(parts) != []
    ensures p < |parts| && ReadSwitch(parts[p]) == Some(SwitchesIn(parts)[|SwitchesIn(parts)| - 1])
    ensures forall q :: p < q < |parts| ==> ReadSwitch(parts[q]).None?
  {
    p := |parts| - 1;
    if ReadSwitch(parts[p]).None? {
      p := LastIn(parts[..p]);
    }
  }

  lemma {:induction false} FirstIn(parts: seq<Part>) returns (p: nat)
    requires SwitchesIn(parts) != []
    ensures p < |parts| && ReadSwitch(parts[p]) == Some(SwitchesIn(parts)[0])
    ensures forall q :: 0 <= q < p ==> ReadSwitch(parts[q]).None?
  {
    var n := |parts| - 1;
    NoSwitchIn(parts[..n]);
    if SwitchesIn(parts[..n]) == [] {
      assert forall q :: 0 <= q < n ==> parts[..n][q] == parts[q];
      p := n;
    } else {
      p := FirstIn(parts[..n]);
    }
  }

  lemma {:induction false} MarkerRead(messages: seq<Message>, k: nat, p: nat, data: Switch)
    ensures MarkerAt(messages, k, p, data)
            <==> k < |messages| && p < |messages[k].parts| && ReadSwitch(messages[k].parts[p]) == Some(data)
  {
  }

  lemma {:induction false} SilentMessage(messages: seq<Message>, k: nat, p: nat, data: Switch)
    requires k < |messages| && SwitchesIn(messages[k].parts) == []
    ensures !MarkerAt(messages, k, p, data)
  {
    NoSwitchIn(messages[k].parts);
    MarkerRead(messages, k, p, data);
  }

  /** The last marker of message `k` itself. */
  lemma {:induction false} LastHere(messages: seq<Message>, k: nat) returns (p: nat)
    requires k < |messages| && SwitchesIn(messages[k].parts) != []
    ensures var here := SwitchesIn(messages[k].parts);
            MarkerAt(messages, k, p, here[|here| - 1]) && NoMarkerFrom(messages, k, p, k + 1)
  {
    var parts := messages[k].parts;
    p := LastIn(parts);
    MarkerRead(messages, k, p, SwitchesIn(parts)[|SwitchesIn(parts)| - 1]);
    forall l: nat, q: nat, data | Before(k, p, l, q) && l < k + 1 ensures !MarkerAt(messages, l, q, data) {
      MarkerRead(messages, l, q, data);
    }
  }

  /** A message without markers adds none. */
  lemma {:induction false} NoneAdded(messages: seq<Message>, k: nat, p: nat, n: nat)
    requires n < |messages| && SwitchesIn(messages[n].parts) == [] && NoMarkerFrom(messages, k, p, n)
    ensures NoMarkerFrom(messages, k, p, n + 1)
  {
    forall l: nat, q: nat, data | Before(k, p, l, q) && l < n + 1 ensures !MarkerAt(messages, l, q, data) {
      if l == n {
        SilentMessage(messages, l, q, data);
      }
    }
  }

  /** The last marker of the first `n` messages. */
  lemma {:induction false} LastMarker(messages: seq<Message>, n: nat) returns (k: nat, p: nat)
    requires n <= |messages| && Seen(messages, n) != []
    ensures k < n && MarkerAt(messages, k, p, Seen(messages, n)[|Seen(messages, n)| - 1])
    ensures NoMarkerFrom(messages, k, p, n)
  {
    assert n > 0 by {
      assert messages[..0] == [];
    }
    hide MarkerAt, NoMarkerFrom, SwitchesIn, Seen;
    SeenNext(messages, n - 1);
    if SwitchesIn(messages[n - 1].parts) != [] {
      k := n - 1;
      p := LastHere(messages, k);
    } else {
      k, p := LastMarker(messages, n - 1);
      NoneAdded(messages, k, p, n - 1);
    }
  }

  lemma {:induction false} NoneMarked(messages: seq<Message>, n: nat, k: nat, p: nat, data: Switch)
    requires n <= |messages| && Seen(messages, n) == [] && k < n
    ensures !MarkerAt(messages, k, p, data)
  {
    SeenNext(messages, n - 1);
    if k < n - 1 {
      NoneMarked(messages, n - 1, k, p, data);
    } else {
      SilentMessage(messages, k, p, data);
    }
  }

  /** The first marker of message `k`, behind messages without any. */
  lemma {:induction false} FirstHere(messages: seq<Message>, k: nat) returns (p: nat)
    requires k < |messages| && SwitchesIn(messages[k].parts) != [] && Seen(messages, k) == []
    ensures MarkerAt(messages, k, p, SwitchesIn(messages[k].parts)[0]) && NoMarkerUntil(messages, k, p)
  {
    var parts := messages[k].parts;
    p := FirstIn(parts);
    MarkerRead(messages, k, p, SwitchesIn(parts)[0]);
    forall l: nat, q: nat, data | Before(l, q, k, p) ensures !MarkerAt(messages, l, q, data) {
      if l < k {
        NoneMarked(messages, k, l, q, data);
      } else {
        MarkerRead(messages, l, q, data);
      }
    }
  }

  /** The first marker among the first `n` messages. */
  lemma {:induction false} FirstMarker(messages: seq<Message>, n: nat) returns (k: nat, p: nat)
    requires n <= |messages| && Seen(messages, n) != []
    ensures k < n && MarkerAt(messages, k, p, Seen(messages, n)[0]) && NoMarkerUntil(messages, k, p)
  {
    assert n > 0 by {
      assert messages[..0] == [];
    }
    hide MarkerAt, NoMarkerUntil, SwitchesIn, Seen;
    SeenNext(messages, n - 1);
    if Seen(messages, n - 1) != [] {
      k, p := FirstMarker(messages, n - 1);
    } else {
      k := n - 1;
      p := FirstHere(messages, k);
    }
  }

  /** A message belongs to the model the last marker up to it leads to; before any marker, to the one the
      first marker leaves. */
  lemma {:induction false} OriginByMarker(messages: seq<Message>, i: nat)
    returns (k: nat, p: nat, data: Switch)
    requires i < |messages| && OriginAt(messages, i).Some?
    ensures MarkerAt(messages, k, p, data)
    ensures if k <= i then NoMarkerFrom(messages, k, p, i + 1) && OriginAt(messages, i) == Some(data.to)
            else NoMarkerUntil(messages, k, p) && OriginAt(messages, i) == Some(data.from)
  {
    if Seen(messages, i + 1) != [] {
      k, p := LastMarker(messages, i + 1);
      data := Seen(messages, i + 1)[|Seen(messages, i + 1)| - 1];
    } else {
      assert messages[..|messages|] == messages;
      k, p := FirstMarker(messages, |messages|);
      data := Switches(messages)[0];
      if k <= i {
        NoneMarked(messages, i + 1, k, p, data);
      }
    }
  }

  /** And the model in use is the one the last marker of all leads to. */
  lemma {:induction false} CurrentByMarker(messages: seq<Message>) returns (k: nat, p: nat, data: Switch)
    requires CurrentOf(Switches(messages)).Some?
    ensures MarkerAt(messages, k, p, data) && NoMarkerFrom(messages, k, p, |messages|)
    ensures CurrentOf(Switches(messages)) == Some(data.to)
  {
    assert messages[..|messages|] == messages;
    k, p := LastMarker(messages, |messages|);
    data := Switches(messages)[|Switches(messages)| - 1];
  }

  /** A message's model is unknown exactly in a transcript without any marker, and so is the one in use. */
  lemma {:induction false} UnknownWithoutMarkers(messages: seq<Message>, i: nat)
    requires i < |messages|
    ensures OriginAt(messages, i).None? <==> forall k, p, data :: !MarkerAt(messages, k, p, data)
    ensures CurrentOf(Switches(messages)).None? <==> forall k, p, data :: !MarkerAt(messages, k, p, data)
  {
    if Switches(messages) == [] {
      assert messages[..|messages|] == messages;
      forall k: nat, p: nat, data | k < |messages| ensures !MarkerAt(messages, k, p, data) {
        NoneMarked(messages, |messages|, k, p, data);
      }
      assert Seen(messages, i + 1) == [] by {
        SwitchesPrefix(messages, i + 1);
      }
    } else {
      hide MarkerAt;
      var k, p, data := OriginByMarker(messages, i);
    }
  }

  lemma {:induction false} SanitizeIdempotent(messages: seq<Message>)
    ensures Sanitize(Sanitize(messages)) == Sanitize(messages)
  {
    var s := Sanitize(messages);
    forall i | 0 <= i < |messages| ensures Sanitize(s)[i] == s[i] {
      SanitizeKeepsSegments(messages, i);
      SanitizeExact(messages, i);
      SanitizeExact(s, i);
      if Switches(messages) != [] {
        CleanFacts(s[i], OriginAt(s, i), CurrentOf(Switches(s)).value);
      }
    }
  }

  lemma {:induction false} OriginLeft(a: seq<Message>, b: seq<Message>, i: nat)
    requires i < |a| && Switches(b) == []
    ensures OriginAt(a + b, i) == OriginAt(a, i)
  {
    SwitchesConcat(a, b);
    assert (a + b)[..i + 1] == a[..i + 1];
  }

  lemma {:induction false} OriginRight(a: seq<Message>, b: seq<Message>, j: nat)
    requires j < |b| && Switches(b) == [] && Switches(a) != []
    ensures OriginAt(a + b, |a| + j) == CurrentOf(Switches(a))
  {
    assert b[..|b|] == b;
    SeenNothing(b, |b|);
    assert Seen(b, j + 1) == [];
    SwitchesConcat(a, b[..j + 1]);
    assert (a + b)[..|a| + j + 1] == a + b[..j + 1];
  }

  lemma {:induction false} CleanCurrent(m: Message, current: Tuple)
    ensures CleanMessage(m, Some(current), current) == m
  {
  }

  lemma {:induction false} SanitizedLeft(a: seq<Message>, b: seq<Message>, i: nat)
    requires i < |a| && Switches(b) == [] && Switches(a) != []
    ensures Sanitize(a + b)[i] == Sanitize(a)[i]
  {
    hide OriginAt, Switches, Sanitize, CleanMessage;
    var current := CurrentOf(Switches(a)).value;
    SwitchesConcat(a, b);
    OriginLeft(a, b, i);
    assert (a + b)[i] == a[i];
    SanitizedAt(a + b, i, current);
    SanitizedAt(a, i, current);
  }

  lemma {:induction false} SanitizedRight(a: seq<Message>, b: seq<Message>, j: nat)
    requires j < |b| && Switches(b) == [] && Switches(a) != []
    ensures Sanitize(a + b)[|a| + j] == b[j]
  {
    hide OriginAt, Switches, Sanitize, CleanMessage;
    var current := CurrentOf(Switches(a)).value;
    SwitchesConcat(a, b);
    OriginRight(a, b, j);
    assert (a + b)[|a| + j] == b[j];
    SanitizedAt(a + b, |a| + j, current);
    CleanCurrent(b[j], current);
  }

  lemma {:induction false} Elementwise<T>(whole: seq<T>, a: seq<T>, b: seq<T>)
    requires |whole| == |a| + |b|
    requires forall i: nat :: i < |a| ==> whole[i] == a[i]
    requires forall j: nat :: j < |b| ==> whole[|a| + j] == b[j]
    ensures whole == a + b
  {
    forall i | 0 <= i < |whole| ensures whole[i] == (a + b)[i] {
      if i >= |a| {
        assert whole[|a| + (i - |a|)] == b[i - |a|];
      }
    }
  }

  /** Growing a transcript without a switch leaves its sanitized prefix as it was, which is what
      keeps the prompt cache valid; the new messages pass through. */
  lemma {:induction false} SanitizePrefixStable(a: seq<Message>, b: seq<Message>)
    requires Switches(b) == []
    ensures Sanitize(a + b) == if Switches(a) == [] then a + b else Sanitize(a) + b
  {
    if Switches(a) == [] {
      SwitchesConcat(a, b);
    } else {
      SanitizedSuffix(a, b);
    }
  }

  lemma {:induction false} SanitizedSuffix(a: seq<Message>, b: seq<Message>)
    requires Switches(b) == [] && Switches(a) != []
    ensures Sanitize(a + b) == Sanitize(a) + b
  {
    hide Sanitize, Switches;
    var whole, left := Sanitize(a + b), Sanitize(a);
    forall i: nat | i < |a| ensures whole[i] == left[i] {
      SanitizedLeft(a, b, i);
    }
    forall j: nat | j < |b| ensures whole[|a| + j] == b[j] {
      SanitizedRight(a, b, j);
    }
    Elementwise(whole, left, b);
  }
}
