/**
 Bounding one text (src/agent/transcript-bounding.ts:29-55) and the checkpoint the last-resort
 reset builds from it (src/agent/compaction.ts:237-276).
 */
module TranscriptBounding {
  import opened Wrappers
  import opened CheckpointText

  const MARKER_PREFIX := "\n\U{2026} [truncated "
  const MARKER_SUFFIX := " chars] \U{2026}\n"
  const MARKER_MAX_DIGITS := 20
  const MARKER_MAX_CHARS := |MARKER_PREFIX| + MARKER_MAX_DIGITS + |MARKER_SUFFIX|

  function Digit(n: nat): char
    requires n < 10
  {
    "0123456789"[n]
  }

  function Decimal(n: nat): string {
    if n < 10 then [Digit(n)] else Decimal(n / 10) + [Digit(n % 10)]
  }

  function Pow10(k: nat): nat {
    if k == 0 then 1 else 10 * Pow10(k - 1)
  }

  function Marker(dropped: nat): string {
    MARKER_PREFIX + Decimal(dropped) + MARKER_SUFFIX
  }

  function BoundText(text: string, headChars: nat, tailChars: nat): string {
    if |text| <= headChars + tailChars + MARKER_MAX_CHARS then text
    else text[..headChars] + Marker(|text| - headChars - tailChars) + text[|text| - tailChars..]
  }

  /** Texts short enough for the marker's digit allowance. */
  predicate Countable(text: string) {
    |text| < Pow10(MARKER_MAX_DIGITS)
  }

  lemma {:induction false} DecimalWidth(n: nat, k: nat)
    requires k > 0 && n < Pow10(k)
    ensures |Decimal(n)| <= k
  {
    if n >= 10 {
      assert k > 1;
      assert n / 10 < Pow10(k - 1);
      DecimalWidth(n / 10, k - 1);
    }
  }

  lemma {:induction false} MarkerFits(dropped: nat)
    requires dropped < Pow10(MARKER_MAX_DIGITS)
    ensures |Marker(dropped)| <= MARKER_MAX_CHARS
  {
    DecimalWidth(dropped, MARKER_MAX_DIGITS);
  }

  /** A bounded text meets the threshold, keeps both ends, and is left alone by a second pass. */
  lemma {:induction false} BoundedFitsAndIsStable(text: string, headChars: nat, tailChars: nat)
    requires Countable(text)
    ensures var out := BoundText(text, headChars, tailChars);
            && |out| <= headChars + tailChars + MARKER_MAX_CHARS
            && BoundText(out, headChars, tailChars) == out
            && (headChars <= |text| ==> headChars <= |out| && out[..headChars] == text[..headChars])
            && (tailChars <= |text| ==> tailChars <= |out| && out[|out| - tailChars..] == text[|text| - tailChars..])
  {
    hide Marker, Pow10;
    if |text| > headChars + tailChars + MARKER_MAX_CHARS {
      MarkerFits(|text| - headChars - tailChars);
    }
  }

  /** What a run of digits says. */
  function Reading(digits: string): nat {
    if digits == [] then 0 else Reading(digits[..|digits| - 1]) * 10 + DigitValue(digits[|digits| - 1])
  }

  function DigitValue(c: char): nat {
    if '0' <= c <= '9' then c as int - '0' as int else 0
  }

  lemma {:induction false} DecimalReads(n: nat)
    ensures Reading(Decimal(n)) == n
    ensures Decimal(n) != [] && forall i :: 0 <= i < |Decimal(n)| ==> '0' <= Decimal(n)[i] <= '9'
  {
    DigitReads(n % 10);
    if n < 10 {
      assert [Digit(n)][..0] == [];
    } else {
      DecimalReads(n / 10);
      assert Decimal(n)[..|Decimal(n)| - 1] == Decimal(n / 10);
    }
  }

  lemma {:induction false} DigitReads(n: nat)
    requires n < 10
    ensures '0' <= Digit(n) <= '9' && DigitValue(Digit(n)) == n
  {
  }

  /** A text over the threshold keeps both ends around a marker that says how much is gone. */
  lemma {:induction false} BoundedTellsDropped(text: string, headChars: nat, tailChars: nat) returns (digits: string)
    requires |text| > headChars + tailChars + 44
    ensures BoundText(text, headChars, tailChars)
            == text[..headChars] + ("\n\U{2026} [truncated " + digits + " chars] \U{2026}\n")
               + text[|text| - tailChars..]
    ensures digits != [] && forall i :: 0 <= i < |digits| ==> '0' <= digits[i] <= '9'
    ensures Reading(digits) == |text| - headChars - tailChars
  {
    digits := Decimal(|text| - headChars - tailChars);
    DecimalReads(|text| - headChars - tailChars);
  }

  /** A text up to the threshold is left alone. */
  lemma {:induction false} ShortTextKept(text: string, headChars: nat, tailChars: nat)
    requires |text| <= headChars + tailChars + 44
    ensures BoundText(text, headChars, tailChars) == text
  {
  }

  // ---------- the reset's checkpoint ----------

  function FramingChars(f: Framing, block: string): nat {
    |f.BuildCheckpointText("", block)|
  }

  /** Prose characters the reset allows before the marker. */
  function ProseAllowance(f: Framing, block: string, maxChars: nat): (n: nat) {
    Max(1, maxChars - FramingChars(f, block) - MARKER_MAX_CHARS)
  }

  function ResetText(f: Framing, summary: string, block: string, maxChars: nat): string {
    f.BuildCheckpointText(BoundText(summary, ProseAllowance(f, block, maxChars), 0), block)
  }

  lemma {:induction false} FrameLength(f: Framing, summary: string, block: string)
    requires f.Valid()
    ensures |f.BuildCheckpointText(summary, block)| == FramingChars(f, block) + |f.StripCheckpointFraming(summary)|
  {
    assert f.StripCheckpointFraming("") == "";
  }

  lemma {:induction false} ResetTextBound(f: Framing, summary: string, block: string, maxChars: nat)
    requires f.Valid() && Countable(summary)
    ensures |ResetText(f, summary, block, maxChars)| <= Max(maxChars, FramingChars(f, block) + 1 + MARKER_MAX_CHARS)
  {
    hide BoundText, Countable, FramingChars, Framing.BuildCheckpointText, Framing.StripCheckpointFraming;
    var allowance := ProseAllowance(f, block, maxChars);
    BoundedFitsAndIsStable(summary, allowance, 0);
    FrameLength(f, BoundText(summary, allowance, 0), block);
  }

  /** The reset uses all the room there is: a summary that fits next to the frame is kept whole, and a longer
      one fills the budget but for the marker. */
  lemma {:induction false} ResetUsesBudget(f: Framing, summary: string, block: string, maxChars: nat)
    requires |f.BuildCheckpointText("", block)| + 44 + 1 <= maxChars
    ensures var room := maxChars - |f.BuildCheckpointText("", block)|;
            ResetText(f, summary, block, maxChars)
            == f.BuildCheckpointText(if |summary| <= room then summary else BoundText(summary, room - 44, 0), block)
  {
    hide Framing.BuildCheckpointText, Marker;
  }

  predicate ResetFits(f: Framing, summary: string, block: string, maxChars: nat) {
    |ResetText(f, summary, block, maxChars)| <= maxChars
  }

  lemma {:induction false} StartsAlike(text: string, prefix: string)
    requires prefix != []
    ensures StartsWith(text, prefix) ==> text[0] == prefix[0]
  {
    if StartsWith(text, prefix) {
      assert text[..|prefix|][0] == prefix[0];
    }
  }

  /** A run of one character that neither framing constant starts with passes through unchanged. */
  lemma {:induction false} PlainRunKept(f: Framing, c: char, n: nat)
    requires f.Valid() && !IsSpace(c) && c != f.preamble[0] && c != f.heading[0] && n > 0
    ensures f.StripCheckpointFraming(Repeat(c, n)) == Repeat(c, n)
  {
    var text := Repeat(c, n);
    assert Trim(text) == text;
    StartsAlike(text, f.preamble);
    StartsAlike(text, f.heading);
  }

  function PlainChar(f: Framing): (c: char)
    requires f.Valid()
    ensures !IsSpace(c) && c != f.preamble[0] && c != f.heading[0]
  {
    if f.preamble[0] != 'a' && f.heading[0] != 'a' then 'a'
    else if f.preamble[0] != 'b' && f.heading[0] != 'b' then 'b'
    else 'c'
  }

  lemma {:induction false} SomeResetOverflows(f: Framing, block: string, maxChars: nat) returns (summary: string)
    requires f.Valid() && maxChars < FramingChars(f, block) + MARKER_MAX_CHARS + 1
    ensures Countable(summary) && !ResetFits(f, summary, block, maxChars)
  {
    summary := Repeat(PlainChar(f), MARKER_MAX_CHARS + 1);
    PlainRunKept(f, PlainChar(f), MARKER_MAX_CHARS + 1);
    FrameLength(f, summary, block);
    assert Pow10(MARKER_MAX_DIGITS) > 100 by {
      PowGrows(MARKER_MAX_DIGITS);
    }
  }

  lemma {:induction false} PowGrows(k: nat)
    requires k >= 3
    ensures Pow10(k) >= 1000
  {
    if k == 3 {
      assert Pow10(1) == 10 && Pow10(2) == 100;
    } else {
      PowGrows(k - 1);
    }
  }

  /** The reset's whole checkpoint fits its budget for every summary exactly when the frame, the
      marker and one character do. */
  lemma {:induction false} ResetFitsExactly(f: Framing, block: string, maxChars: nat)
    requires f.Valid()
    ensures (forall summary :: Countable(summary) ==> ResetFits(f, summary, block, maxChars))
            <==> FramingChars(f, block) + MARKER_MAX_CHARS + 1 <= maxChars
  {
    if FramingChars(f, block) + MARKER_MAX_CHARS + 1 <= maxChars {
      forall summary | Countable(summary) ensures ResetFits(f, summary, block, maxChars) {
        ResetTextBound(f, summary, block, maxChars);
      }
    } else {
      var summary := SomeResetOverflows(f, block, maxChars);
    }
  }
}
