/** The explanation engine: the list of readable lines built from the other
    engines' results. Only the fields it reads are parameters: the
    narrative consistency score, the structure suggestions, the tone
    engine's applied replacements and the number of diff changes. */
module ExplanationEngine {
  import opened Strings

  /** Below this consistency score the first line is a warning. */
  const LowConsistency: real := 0.5

  // ---------------------------------------------------------------------------
  // Two-decimal formatting

  /** `x` times 100 rounded to the nearest integer, ties to even: the
      rounding that two-decimal formatting applies to the exact value of a
      double. */
  function Hundredths(x: real): (n: int)
    ensures x * 100.0 - 0.5 <= n as real <= x * 100.0 + 0.5
    ensures x >= 0.0 ==> n >= 0
  {
    var y := x * 100.0;
    var f := y.Floor;
    if y - f as real > 0.5 then f + 1
    else if y - f as real < 0.5 then f
    else if f % 2 == 0 then f else f + 1
  }

  /** `f"{x:.2f}"`. */
  function Fixed2(x: real): string {
    var a: nat := Hundredths(if x < 0.0 then -x else x);
    (if x < 0.0 then "-" else "") + NatToString(a / 100) + "." + [DigitChar(a / 10 % 10), DigitChar(a % 10)]
  }

  /** Reading the printed score back: digits, a point and two digits whose
      value is the score in hundredths, off by at most half a hundredth, with
      a minus sign exactly for negative scores. */
  lemma Fixed2Reads(x: real)
    ensures var r := Fixed2(x);
      var ax := if x < 0.0 then -x else x;
      var k := |r| - 3;
      && |r| >= 4
      && (x < 0.0 <==> r[0] == '-')
      && r[k] == '.'
      && ParseNat(r[(if x < 0.0 then 1 else 0)..k]) * 100 + ParseNat(r[k + 1..]) == Hundredths(ax)
      && ax * 100.0 - 0.5 <= Hundredths(ax) as real <= ax * 100.0 + 0.5
  {
    var ax := if x < 0.0 then -x else x;
    var a: nat := Hundredths(ax);
    var sign := if x < 0.0 then "-" else "";
    assert Fixed2(x) == sign + NatToString(a / 100) + "." + [DigitChar(a / 10 % 10), DigitChar(a % 10)];
    ReadBack(sign, a, Fixed2(x));
  }

  /** The digits around the point read back as `a` hundredths, after an
      optional sign. */
  lemma ReadBack(sign: string, a: nat, r: string)
    requires sign == "" || sign == "-"
    requires r == sign + NatToString(a / 100) + "." + [DigitChar(a / 10 % 10), DigitChar(a % 10)]
    ensures var k := |r| - 3;
      && |r| >= 4
      && (sign == "-" <==> r[0] == '-')
      && r[k] == '.'
      && ParseNat(r[|sign|..k]) * 100 + ParseNat(r[k + 1..]) == a
  {
    var whole := NatToString(a / 100);
    Fixed2Layout(sign, a);
    ParseNatToString(a / 100);
    TwoDigits(a);
    if sign == "" {
      assert r[0] == whole[0];
    }
  }

  /** Where the parts of the printed number lie. */
  lemma Fixed2Layout(sign: string, a: nat)
    ensures var whole := NatToString(a / 100);
      var tail := [DigitChar(a / 10 % 10), DigitChar(a % 10)];
      var r := sign + whole + "." + tail;
      var k := |r| - 3;
      && r[|sign|..k] == whole && r[k] == '.' && r[k + 1..] == tail
      && (|sign| == 0 ==> r[0] == whole[0])
      && (|sign| > 0 ==> r[0] == sign[0])
  {
  }

  /** The two printed decimals read back as the hundredths. */
  lemma TwoDigits(a: nat)
    ensures ParseNat([DigitChar(a / 10 % 10), DigitChar(a % 10)]) == a % 100
  {
    var tail := [DigitChar(a / 10 % 10), DigitChar(a % 10)];
    DigitValue(a / 10 % 10);
    DigitValue(a % 10);
    assert tail[..1] == [DigitChar(a / 10 % 10)];
    assert [DigitChar(a / 10 % 10)][..0] == [];
    assert ParseNat([DigitChar(a / 10 % 10)]) == a / 10 % 10;
    assert ParseNat(tail) == ParseNat(tail[..1]) * 10 + a % 10;
    LastTwoDigits(a);
  }

  lemma LastTwoDigits(a: nat)
    ensures (a / 10 % 10) * 10 + a % 10 == a % 100
  {
    var h, m := a / 100, a % 100;
    assert a == 10 * (10 * h + m / 10) + m % 10;
    assert a / 10 == 10 * h + m / 10;
    assert a % 10 == m % 10;
    assert a / 10 % 10 == m / 10;
  }

  // ---------------------------------------------------------------------------
  // The lines

  function WarningLine(score: real): string {
    "Narrative " + "warning: " + "low adjacent sentence consistency (" + Fixed2(score) + ")."
  }

  function StatusLine(score: real): string {
    "Narrative " + "status: " + "consistency is acceptable (" + Fixed2(score) + ")."
  }

  function SuggestionLine(suggestion: string): string {
    "Structure suggestion: " + suggestion
  }

  const NoReplacements := "Tone modifications" + ": no replacements were applied."

  function ToneLine(applied: seq<string>): string {
    if applied != [] then "Tone modifications" + " applied: " + JoinWith(applied, ", ") else NoReplacements
  }

  function ChangesLine(count: nat): string {
    "Change tracker detected " + NatToString(count) + " change(s)."
  }

  /** `ExplanationEngine.analyze`. */
  method Explain(consistencyScore: real, suggestions: seq<string>, applied: seq<string>, changeCount: nat)
    returns (items: seq<string>)
    ensures |items| == 3 + |suggestions|
    ensures items[0] == if consistencyScore < LowConsistency then WarningLine(consistencyScore) else StatusLine(consistencyScore)
    ensures forall k :: 0 <= k < |suggestions| ==> items[1 + k] == SuggestionLine(suggestions[k])
    ensures items[|items| - 2] == ToneLine(applied)
    ensures items[|items| - 1] == ChangesLine(changeCount)
  {
    items := [];
    if consistencyScore < LowConsistency {
      items := items + [WarningLine(consistencyScore)];
    } else {
      items := items + [StatusLine(consistencyScore)];
    }
    if suggestions != [] {
      for k := 0 to |suggestions|
        invariant |items| == 1 + k
        invariant items[0] == if consistencyScore < LowConsistency then WarningLine(consistencyScore) else StatusLine(consistencyScore)
        invariant forall j :: 0 <= j < k ==> items[1 + j] == SuggestionLine(suggestions[j])
      {
        items := items + [SuggestionLine(suggestions[k])];
      }
    }
    if applied != [] {
      items := items + ["Tone modifications" + " applied: " + JoinWith(applied, ", ")];
    } else {
      items := items + [NoReplacements];
    }
    items := items + [ChangesLine(changeCount)];
  }

  // ---------------------------------------------------------------------------
  // Properties

  /** A warning line is never a status line. */
  lemma WarningIsNotStatus(x: real, y: real)
    ensures WarningLine(x) != StatusLine(y)
  {
    assert WarningLine(x)[10] == "warning: "[0] == 'w';
    assert StatusLine(y)[10] == "status: "[0] == 's';
  }

  /** The first line is the warning iff the score is below 0.5, and it
      carries the printed score either way. */
  lemma FirstLine(score: real, line: string)
    requires line == if score < LowConsistency then WarningLine(score) else StatusLine(score)
    ensures line == WarningLine(score) <==> score < LowConsistency
    ensures line == StatusLine(score) <==> score >= LowConsistency
    ensures Contains(line, Fixed2(score))
  {
    WarningIsNotStatus(score, score);
    var head := if score < LowConsistency then
      "Narrative " + "warning: " + "low adjacent sentence consistency ("
      else "Narrative " + "status: " + "consistency is acceptable (";
    assert line == head + Fixed2(score) + ").";
    assert line[|head|..|head| + |Fixed2(score)|] == Fixed2(score);
    ContainsAt(line, Fixed2(score), |head|);
  }

  /** The tone line lists the replacements iff there are any. */
  lemma ToneLineCases(applied: seq<string>)
    ensures ToneLine(applied) == NoReplacements <==> applied == []
    ensures applied != [] ==> ToneLine(applied)[|ToneLine(applied)| - |JoinWith(applied, ", ")|..] == JoinWith(applied, ", ")
  {
    if applied != [] {
      var line := ToneLine(applied);
      assert line[18] == " applied: "[0] == ' ';
      assert NoReplacements[18] == ": no replacements were applied."[0] == ':';
    }
  }

  /** The change count can be read back from the last line. */
  lemma ChangesLineReads(count: nat)
    ensures var line := ChangesLine(count);
      var digits := line[24..|line| - 11];
      ParseNat(digits) == count && AllDigits(digits)
  {
    var line := ChangesLine(count);
    assert |"Change tracker detected "| == 24 && |" change(s)."| == 11;
    assert line[24..|line| - 11] == NatToString(count);
    ParseNatToString(count);
  }

  predicate AllDigits(s: string) {
    forall i :: 0 <= i < |s| ==> '0' <= s[i] <= '9'
  }
}
