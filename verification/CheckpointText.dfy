/**
 Checkpoint framing (src/agent/compaction.ts:136-160) and text bounding
 (src/agent/transcript-bounding.ts:29-55). The two framing constants are parameters.
 */
module CheckpointText {
  import opened Wrappers

  /** The white space `String.prototype.trim` removes. */
  predicate IsSpace(c: char) {
    || c == '\t' || c == '\n' || c == '\U{0B}' || c == '\U{0C}' || c == '\r' || c == ' '
    || c == '\U{A0}' || c == '\U{1680}' || '\U{2000}' <= c <= '\U{200A}'
    || c == '\U{2028}' || c == '\U{2029}' || c == '\U{202F}' || c == '\U{205F}' || c == '\U{3000}' || c == '\U{FEFF}'
  }

  function Trim(s: string): (t: string)
    ensures |t| <= |s|
    decreases |s|
  {
    if s == [] then s
    else if IsSpace(s[0]) then Trim(s[1..])
    else if IsSpace(s[|s| - 1]) then Trim(s[..|s| - 1])
    else s
  }

  predicate Trimmed(s: string) {
    s == [] || (!IsSpace(s[0]) && !IsSpace(s[|s| - 1]))
  }

  predicate StartsWith(s: string, prefix: string) {
    |prefix| <= |s| && s[..|prefix|] == prefix
  }

  const BLANK_LINE := "\n\n"

  /** The first blank line at or after `i`. */
  function BlankLineFrom(s: string, i: nat): (k: Option<nat>)
    ensures k.Some? ==> i <= k.value && k.value + 2 <= |s| && s[k.value] == '\n' && s[k.value + 1] == '\n'
    decreases |s| - i
  {
    if i + 2 > |s| then None
    else if s[i] == '\n' && s[i + 1] == '\n' then Some(i)
    else BlankLineFrom(s, i + 1)
  }

  predicate NoBlankLine(s: string) {
    forall i, j :: 0 <= i < |s| && 0 <= j < |s| && j == i + 1 ==> !(s[i] == '\n' && s[j] == '\n')
  }

  /** The preamble and the continuity block's heading. */
  datatype Framing = Framing(preamble: string, heading: string) {
    predicate Valid() {
      preamble != [] && Trimmed(preamble) && heading != [] && Trimmed(heading)
    }

    function StripCheckpointFraming(text: string): (t: string)
      ensures |t| <= |text|
    {
      DropHeadedBlock(DropPreamble(Trim(text)))
    }

    function DropPreamble(text: string): (t: string)
      ensures |t| <= |text|
    {
      if StartsWith(text, preamble) then Trim(text[|preamble|..]) else text
    }

    function DropHeadedBlock(text: string): (t: string)
      ensures |t| <= |text|
    {
      if StartsWith(text, heading) then
        match BlankLineFrom(text, 0)
        case Some(k) => Trim(text[k..])
        case None => ""
      else text
    }

    function Header(block: string): string {
      preamble + BLANK_LINE + (if Trim(block) == [] then "" else Trim(block) + BLANK_LINE)
    }

    function BuildCheckpointText(summary: string, block: string): (text: string) {
      Header(block) + StripCheckpointFraming(summary)
    }

    /** A rendered block: trimmed, headed, and without a blank line inside. */
    predicate IsBlock(block: string) {
      StartsWith(block, heading) && Trimmed(block) && NoBlankLine(block)
    }
  }

  // ---------- trimming ----------

  /** The white space of String.prototype.trim by code point: white space and line terminators as the
      language defines them. */
  lemma {:induction false} SpaceByCode(c: char)
    ensures IsSpace(c) <==>
              c as int in {9, 10, 11, 12, 13, 32, 160, 5760, 8232, 8233, 8239, 8287, 12288, 65279}
              || 8192 <= c as int <= 8202
  {
  }

  /** Trimming takes white space off both ends and nothing else. */
  lemma {:induction false} TrimExact(s: string) returns (i: nat, j: nat)
    ensures i <= j <= |s| && Trim(s) == s[i..j]
    ensures forall k :: 0 <= k < i || j <= k < |s| ==> IsSpace(s[k])
    ensures i < j ==> !IsSpace(s[i]) && !IsSpace(s[j - 1])
    decreases |s|
  {
    hide IsSpace;
    if s == [] {
      i, j := 0, 0;
    } else if IsSpace(s[0]) {
      i, j := TrimExact(s[1..]);
      assert forall k :: 0 <= k < |s| - 1 ==> s[1..][k] == s[k + 1];
      assert s[1..][i..j] == s[i + 1..j + 1];
      i, j := i + 1, j + 1;
      assert forall k :: 0 < k < |s| ==> s[k] == s[1..][k - 1];
    } else if IsSpace(s[|s| - 1]) {
      i, j := TrimExact(s[..|s| - 1]);
      assert forall k :: 0 <= k < |s| - 1 ==> s[..|s| - 1][k] == s[k];
      assert s[..|s| - 1][i..j] == s[i..j];
    } else {
      i, j := 0, |s|;
    }
  }

  lemma {:induction false} TrimTrims(s: string)
    ensures Trimmed(Trim(s))
    decreases |s|
  {
    if s != [] && IsSpace(s[0]) {
      TrimTrims(s[1..]);
    } else if s != [] && IsSpace(s[|s| - 1]) {
      TrimTrims(s[..|s| - 1]);
    }
  }

  lemma {:induction false} TrimAfterBlankLine(t: string)
    requires Trimmed(t)
    ensures Trim(BLANK_LINE + t) == t
  {
    var s := BLANK_LINE + t;
    assert s[1..][1..] == t;
    assert Trim(t) == t;
    assert s[1..][0] == '\n';
    assert Trim(s[1..]) == t;
  }

  lemma {:induction false} TrimBeforeBlankLine(t: string)
    requires Trimmed(t) && t != []
    ensures Trim(t + BLANK_LINE) == t
  {
    var s := t + BLANK_LINE;
    var s1 := s[..|s| - 1];
    assert s[0] == t[0] && s[|s| - 1] == '\n';
    assert s1[0] == t[0] && s1[|s1| - 1] == '\n';
    assert s1[..|s1| - 1] == t;
    assert Trim(t) == t;
    assert Trim(s1) == t;
  }

  lemma {:induction false} StripTrims(f: Framing, text: string)
    ensures Trimmed(f.StripCheckpointFraming(text))
  {
    var out := Trim(text);
    TrimTrims(text);
    TrimTrims(if StartsWith(out, f.preamble) then out[|f.preamble|..] else out);
    var out2 := f.DropPreamble(out);
    var k := BlankLineFrom(out2, 0);
    TrimTrims(if k.Some? then out2[k.value..] else out2);
  }

  /** Text that starts visibly is only trimmed at its end. */
  lemma {:induction false} TrimIsPrefix(s: string)
    requires s != [] && !IsSpace(s[0])
    ensures Trim(s) <= s && forall i :: |Trim(s)| <= i < |s| ==> IsSpace(s[i])
    decreases |s|
  {
    if IsSpace(s[|s| - 1]) {
      TrimIsPrefix(s[..|s| - 1]);
    }
  }

  // ---------- framing does not stack ----------

  lemma {:induction false} FindsTheSeam(block: string, rest: string, i: nat)
    requires NoBlankLine(block) && Trimmed(block) && block != [] && i <= |block|
    ensures BlankLineFrom(block + BLANK_LINE + rest, i) == Some(|block|)
    decreases |block| - i
  {
    var s := block + BLANK_LINE + rest;
    assert s[|block|] == '\n' && s[|block| + 1] == '\n';
    if i < |block| {
      assert s[i] == block[i];
      assert i + 1 < |block| ==> s[i + 1] == block[i + 1];
      FindsTheSeam(block, rest, i + 1);
    }
  }

  lemma {:induction false} NoSeam(block: string, i: nat)
    requires NoBlankLine(block)
    ensures BlankLineFrom(block, i) == None
    decreases |block| - i
  {
    if i + 2 <= |block| {
      NoSeam(block, i + 1);
    }
  }

  /** Text laid out as the preamble, a blank line and a trimmed body gives the body back. */
  lemma {:induction false} PreambleComesOff(f: Framing, body: string)
    requires f.Valid() && Trimmed(body)
    ensures f.DropPreamble(Trim(f.preamble + BLANK_LINE + body)) == body
  {
    var text := f.preamble + BLANK_LINE + body;
    assert text[0] == f.preamble[0];
    if body == [] {
      assert text == f.preamble + BLANK_LINE;
      TrimBeforeBlankLine(f.preamble);
      assert f.preamble[|f.preamble|..] == [];
    } else {
      assert text[|text| - 1] == body[|body| - 1];
      assert Trim(text) == text;
      assert text[..|f.preamble|] == f.preamble;
      assert text[|f.preamble|..] == BLANK_LINE + body;
      TrimAfterBlankLine(body);
    }
  }

  /** Trailing blank lines under the frame do not matter. */
  lemma {:induction false} FrameEnds(f: Framing, block: string)
    requires f.Valid() && Trimmed(block) && block != []
    ensures Trim(f.preamble + BLANK_LINE + (block + BLANK_LINE)) == Trim(f.preamble + BLANK_LINE + block)
  {
    var text := f.preamble + BLANK_LINE + block;
    assert text[0] == f.preamble[0] && text[|text| - 1] == block[|block| - 1];
    assert f.preamble + BLANK_LINE + (block + BLANK_LINE) == text + BLANK_LINE;
    TrimBeforeBlankLine(text);
  }

  lemma {:induction false} BlockComesOff(f: Framing, block: string, rest: string)
    requires f.Valid() && f.IsBlock(block) && Trimmed(rest)
    ensures f.DropHeadedBlock(block + BLANK_LINE + rest) == rest
    ensures f.DropHeadedBlock(block) == ""
  {
    var text := block + BLANK_LINE + rest;
    assert block[..|f.heading|] == f.heading;
    assert text[..|f.heading|] == f.heading;
    FindsTheSeam(block, rest, 0);
    assert text[|block|..] == BLANK_LINE + rest;
    TrimAfterBlankLine(rest);
    NoSeam(block, 0);
  }

  /** What follows the block in a checkpoint, once the preamble is off. */
  function Body(block: string, prose: string): string {
    if prose == [] then block else block + BLANK_LINE + prose
  }

  /** Stripping a checkpoint takes the preamble off and then the headed block. */
  lemma {:induction false} StripOfBuild(f: Framing, summary: string, block: string)
    requires f.Valid() && Trim(block) != []
    ensures var prose := f.StripCheckpointFraming(summary);
            f.StripCheckpointFraming(f.BuildCheckpointText(summary, block))
              == f.DropHeadedBlock(Body(Trim(block), prose))
  {
    var prose, b := f.StripCheckpointFraming(summary), Trim(block);
    StripTrims(f, summary);
    TrimTrims(block);
    assert f.BuildCheckpointText(summary, block) == f.preamble + BLANK_LINE + (b + BLANK_LINE + prose);
    if prose == [] {
      assert b + BLANK_LINE + prose == b + BLANK_LINE;
      FrameEnds(f, b);
      PreambleComesOff(f, b);
    } else {
      var body := b + BLANK_LINE + prose;
      assert body[0] == b[0] && body[|body| - 1] == prose[|prose| - 1];
      PreambleComesOff(f, body);
    }
  }

  /** Stripping a checkpoint over a clean block gives back the prose it was built from. */
  lemma {:induction false} StripUndoesBuild(f: Framing, summary: string, block: string)
    requires f.Valid() && f.IsBlock(Trim(block))
    ensures f.StripCheckpointFraming(f.BuildCheckpointText(summary, block)) == f.StripCheckpointFraming(summary)
  {
    var b := Trim(block);
    assert b[..|f.heading|] == f.heading;
    StripTrims(f, summary);
    StripOfBuild(f, summary, block);
    BlockComesOff(f, b, f.StripCheckpointFraming(summary));
  }

  /** A checkpoint reads: preamble, block, prose, with blank lines between, and no gap for an empty block. A
      summary that starts with neither the preamble nor the heading is its own prose. */
  lemma {:induction false} Layout(f: Framing, summary: string, block: string)
    requires !StartsWith(Trim(summary), f.preamble) && !StartsWith(Trim(summary), f.heading)
    ensures Trim(block) != [] ==>
              f.BuildCheckpointText(summary, block)
              == f.preamble + "\n\n" + Trim(block) + "\n\n" + Trim(summary)
    ensures Trim(block) == [] ==>
              f.BuildCheckpointText(summary, block) == f.preamble + "\n\n" + Trim(summary)
  {
    Regroup(f.preamble + "\n\n", Trim(block), "\n\n");
  }

  // ---------- a blank line inside the block ----------

  /** Trimming keeps everything between two visible characters. */
  lemma {:induction false} TrimKeeps(s: string, i: nat, j: nat)
    requires i <= j < |s| && !IsSpace(s[i]) && !IsSpace(s[j])
    ensures |Trim(s)| >= j - i + 1
    decreases |s|
  {
    if IsSpace(s[0]) {
      assert s[1..][i - 1] == s[i] && s[1..][j - 1] == s[j];
      TrimKeeps(s[1..], i - 1, j - 1);
    } else if IsSpace(s[|s| - 1]) {
      assert s[..|s| - 1][i] == s[i] && s[..|s| - 1][j] == s[j];
      TrimKeeps(s[..|s| - 1], i, j);
    }
  }

  /** The search stops at or before any blank line. */
  lemma {:induction false} FoundBy(s: string, i: nat, k: nat)
    requires i <= k && k + 1 < |s| && s[k] == '\n' && s[k + 1] == '\n'
    ensures BlankLineFrom(s, i).Some? && BlankLineFrom(s, i).value <= k
    decreases k - i
  {
    if i < k && !(s[i] == '\n' && s[i + 1] == '\n') {
      FoundBy(s, i + 1, k);
    }
  }

  lemma {:induction false} BlankLineInside(s: string) returns (k: nat)
    requires !NoBlankLine(s)
    ensures k + 1 < |s| && s[k] == '\n' && s[k + 1] == '\n'
  {
    var i, j :| 0 <= i < |s| && 0 <= j < |s| && j == i + 1 && s[i] == '\n' && s[j] == '\n';
    k := i;
  }

  /** Behind a cut inside `b` the body keeps everything up to its last character. */
  lemma {:induction false} CutKeepsProse(b: string, prose: string, at: nat)
    requires Trimmed(b) && Trimmed(prose) && at < |b|
    ensures |Trim(Body(b, prose)[at..])| > |prose|
  {
    var body := Body(b, prose);
    var rest := body[at..];
    assert rest[|b| - 1 - at] == b[|b| - 1] && rest[|rest| - 1] == body[|body| - 1];
    TrimKeeps(rest, |b| - 1 - at, |rest| - 1);
  }

  /** A blank line inside the block leaves the rest of the block in the prose. */
  lemma {:induction false} TailStays(f: Framing, b: string, prose: string)
    requires StartsWith(b, f.heading) && Trimmed(b) && Trimmed(prose) && !NoBlankLine(b)
    ensures |f.DropHeadedBlock(Body(b, prose))| > |prose|
  {
    hide Trim, Trimmed, NoBlankLine;
    var body := Body(b, prose);
    assert body[..|f.heading|] == b[..|f.heading|];
    var k := BlankLineInside(b);
    assert body[k] == b[k] && body[k + 1] == b[k + 1];
    FoundBy(body, 0, k);
    CutKeepsProse(b, prose, BlankLineFrom(body, 0).value);
  }

  /** Whether the block has a blank line inside decides how much prose comes back. */
  lemma {:induction false} StripLength(f: Framing, summary: string, block: string)
    requires f.Valid() && StartsWith(Trim(block), f.heading)
    ensures var was, now := f.StripCheckpointFraming(summary),
            f.StripCheckpointFraming(f.BuildCheckpointText(summary, block));
            if NoBlankLine(Trim(block)) then now == was else |now| > |was|
  {
    TrimTrims(block);
    StripTrims(f, summary);
    assert Trim(block)[..|f.heading|] == f.heading;
    if NoBlankLine(Trim(block)) {
      StripUndoesBuild(f, summary, block);
    } else {
      StripOfBuild(f, summary, block);
      TailStays(f, Trim(block), f.StripCheckpointFraming(summary));
    }
  }

  /** Re-framing a checkpoint under a new block is framing its prose under it, and so framing does not
      stack, exactly when the old block has no blank line inside. */
  lemma {:induction false} FramingNeverStacks(f: Framing, summary: string, block: string, next: string)
    requires f.Valid() && StartsWith(Trim(block), f.heading)
    ensures f.BuildCheckpointText(f.BuildCheckpointText(summary, block), next) == f.BuildCheckpointText(summary, next)
            <==> NoBlankLine(Trim(block))
  {
    StripLength(f, summary, block);
    SameHeader(f.Header(next), f.StripCheckpointFraming(f.BuildCheckpointText(summary, block)),
      f.StripCheckpointFraming(summary));
  }

  /** Successive compactions, each one echoing the previous checkpoint back in full. */
  function Cycles(f: Framing, summary: string, blocks: seq<string>): string {
    if blocks == [] then summary
    else f.BuildCheckpointText(Cycles(f, summary, blocks[..|blocks| - 1]), blocks[|blocks| - 1])
  }

  predicate Headed(f: Framing, blocks: seq<string>) {
    forall i :: 0 <= i < |blocks| ==> StartsWith(Trim(blocks[i]), f.heading)
  }

  predicate Clean(blocks: seq<string>) {
    forall i :: 0 <= i < |blocks| ==> NoBlankLine(Trim(blocks[i]))
  }

  lemma {:induction false} CleanSnoc(front: seq<string>, last: string)
    ensures Clean(front + [last]) <==> Clean(front) && NoBlankLine(Trim(last))
  {
    var blocks := front + [last];
    assert forall i :: 0 <= i < |front| ==> blocks[i] == front[i];
    assert blocks[|front|] == last;
  }

  /** The prose a run of cycles carries: the first one, or more than that once a block had a blank line. */
  lemma {:induction false} CyclesProse(f: Framing, summary: string, blocks: seq<string>)
    requires f.Valid() && Headed(f, blocks)
    ensures var was, now := f.StripCheckpointFraming(summary), f.StripCheckpointFraming(Cycles(f, summary, blocks));
            if Clean(blocks) then now == was else |now| > |was|
  {
    if blocks != [] {
      var front, last := blocks[..|blocks| - 1], blocks[|blocks| - 1];
      assert blocks == front + [last];
      CleanSnoc(front, last);
      CyclesProse(f, summary, front);
      StripLength(f, Cycles(f, summary, front), last);
    }
  }

  /** Any number of compaction cycles carries one preamble, one block and the first prose, exactly when
      no block but the last has a blank line inside. */
  lemma {:induction false} CyclesCarryOneFrame(f: Framing, summary: string, blocks: seq<string>)
    requires f.Valid() && blocks != [] && Headed(f, blocks[..|blocks| - 1])
    ensures Cycles(f, summary, blocks) == f.BuildCheckpointText(summary, blocks[|blocks| - 1])
            <==> Clean(blocks[..|blocks| - 1])
  {
    var front, last := blocks[..|blocks| - 1], blocks[|blocks| - 1];
    CyclesProse(f, summary, front);
    SameHeader(f.Header(last), f.StripCheckpointFraming(Cycles(f, summary, front)), f.StripCheckpointFraming(summary));
  }

  /** Without a block the frame comes off exactly when the prose does not itself begin with the heading. */
  lemma {:induction false} EmptyBlockExact(f: Framing, summary: string, block: string, next: string)
    requires f.Valid() && Trim(block) == []
    ensures f.BuildCheckpointText(f.BuildCheckpointText(summary, block), next) == f.BuildCheckpointText(summary, next)
            <==> !StartsWith(f.StripCheckpointFraming(summary), f.heading)
  {
    hide Framing.DropHeadedBlock, Framing.DropPreamble, Framing.StripCheckpointFraming, Trim, StartsWith;
    var prose := f.StripCheckpointFraming(summary);
    var again := f.StripCheckpointFraming(f.BuildCheckpointText(summary, block));
    StripOfBare(f, summary, block);
    HeadedShrinks(f, prose);
    SameHeader(f.Header(next), again, prose);
  }

  lemma {:induction false} StripOfBare(f: Framing, summary: string, block: string)
    requires f.Valid() && Trim(block) == []
    ensures f.StripCheckpointFraming(f.BuildCheckpointText(summary, block))
            == f.DropHeadedBlock(f.StripCheckpointFraming(summary))
  {
    hide Framing.DropHeadedBlock, Framing.DropPreamble, Trim;
    var prose := f.StripCheckpointFraming(summary);
    StripTrims(f, summary);
    assert f.BuildCheckpointText(summary, block) == f.preamble + BLANK_LINE + prose;
    PreambleComesOff(f, prose);
  }

  lemma {:induction false} HeadedShrinks(f: Framing, text: string)
    requires f.Valid()
    ensures f.DropHeadedBlock(text) == text <==> !StartsWith(text, f.heading)
  {
    if StartsWith(text, f.heading) {
      assert text[..|f.heading|][0] == f.heading[0];
      var k := BlankLineFrom(text, 0);
      assert k.Some? ==> |text[k.value..]| < |text|;
    }
  }

  lemma {:induction false} SameHeader(header: string, a: string, b: string)
    ensures header + a == header + b <==> a == b
  {
    assert (header + a)[|header|..] == a && (header + b)[|header|..] == b;
  }

  // ---------- an input that loses prose ----------

  /** A summary whose prose, once its frame is off, begins with the heading and goes on after a blank line. */
  function HeadedSummary(f: Framing, tail: string): string {
    f.preamble + BLANK_LINE + (f.heading + BLANK_LINE + HeadedProse(f, tail))
  }

  function HeadedProse(f: Framing, tail: string): string {
    f.heading + BLANK_LINE + tail
  }

  lemma {:induction false} HeadedProseTrimmed(f: Framing, tail: string)
    requires f.Valid() && Trimmed(tail) && tail != []
    ensures Trimmed(HeadedProse(f, tail)) && HeadedProse(f, tail) != []
  {
  }

  lemma {:induction false} HeadingIsBlock(f: Framing)
    requires f.Valid() && NoBlankLine(f.heading)
    ensures f.IsBlock(f.heading)
  {
    assert f.heading[..|f.heading|] == f.heading;
  }

  lemma {:induction false} HeadedStrips(f: Framing, tail: string)
    requires f.Valid() && NoBlankLine(f.heading) && Trimmed(tail) && tail != []
    ensures f.StripCheckpointFraming(HeadedSummary(f, tail)) == HeadedProse(f, tail)
    ensures f.StripCheckpointFraming(f.preamble + BLANK_LINE + HeadedProse(f, tail)) == tail
  {
    var prose := HeadedProse(f, tail);
    HeadingIsBlock(f);
    HeadedProseTrimmed(f, tail);
    HeadedProseTrimmed(f, prose);
    PreambleComesOff(f, HeadedProse(f, prose));
    BlockComesOff(f, f.heading, prose);
    PreambleComesOff(f, prose);
    BlockComesOff(f, f.heading, tail);
  }

  lemma {:induction false} BareFrame(f: Framing, summary: string)
    ensures f.BuildCheckpointText(summary, "") == f.preamble + BLANK_LINE + f.StripCheckpointFraming(summary)
  {
    assert Trim("") == [];
  }

  /** With an empty block, one re-framing of that checkpoint drops the heading from its prose. */
  lemma {:induction false} EmptyBlockLosesProse(f: Framing, tail: string)
    requires f.Valid() && NoBlankLine(f.heading) && Trimmed(tail) && tail != []
    ensures var once := f.BuildCheckpointText(HeadedSummary(f, tail), "");
            && once == f.preamble + BLANK_LINE + HeadedProse(f, tail)
            && f.BuildCheckpointText(once, "") == f.preamble + BLANK_LINE + tail
  {
    HeadedStrips(f, tail);
    BareFrame(f, HeadedSummary(f, tail));
    BareFrame(f, f.preamble + BLANK_LINE + HeadedProse(f, tail));
  }

  /** There are such inputs: with one-letter constants, the frame over "H", a blank line and "m". */
  lemma {:induction false} EmptyBlockExample()
    ensures var f := Framing("P", "H");
            var once := f.BuildCheckpointText(HeadedSummary(f, "m"), "");
            f.Valid() && f.BuildCheckpointText(once, "") != once
  {
    var f := Framing("P", "H");
    EmptyBlockLosesProse(f, "m");
  }
}
