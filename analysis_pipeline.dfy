/** The `/analyze` pipeline of the AI engine: the four engines run on the
    request text, the correction engine runs on the tone engine's output,
    the diff compares the original text with the final one, and every diff
    change is given a reason. The outputs of the language libraries and of
    the correction and diff engines are parameters, gathered in `Engines`. */
module AnalysisPipeline {
  import opened Wrappers
  import opened Strings
  import TU = TextUtils
  import NE = NarrativeEngine
  import SE = StructureEngine
  import TE = ToneEngine
  import EE = ExplanationEngine

  /** One change of the diff engine: its type ("modification", "addition"
      or "deletion") and the words before and after. */
  datatype DiffChange = DiffChange(kind: string, before: string, after: string)

  /** One change of the correction engine, as far as the enrichment reads
      it: its "before" text and its "reason" entry (None when absent). */
  datatype Correction = Correction(before: string, reason: Option<string>)

  /** A change of the response: the diff change plus its reason. */
  datatype ChangeItem = ChangeItem(kind: string, before: string, after: string, reason: Option<string>)

  const ModificationReason := "AI adjusted this word " + "to better match the target tone and flow."
  const AdditionReason := "AI added this " + "to improve narrative clarity."
  const DeletionReason := "AI removed this " + "for conciseness."

  // ---------------------------------------------------------------------------
  // The enrichment loop

  /** `next((c for c in corrections if c["before"] == before), None)`, as an
      index: the first correction with that "before" text. */
  function FirstMatch(corrections: seq<Correction>, before: string): (r: Option<nat>)
    ensures r.Some? ==> r.value < |corrections| && corrections[r.value].before == before
    ensures r.Some? ==> forall j :: 0 <= j < r.value ==> corrections[j].before != before
    ensures r.None? ==> forall j :: 0 <= j < |corrections| ==> corrections[j].before != before
    decreases |corrections|
  {
    if corrections == [] then None
    else if corrections[0].before == before then Some(0)
    else match FirstMatch(corrections[1..], before)
      case None => None
      case Some(i) => Some(i + 1)
  }

  /** The fixed reason for a diff change type; any other type keeps the
      reason it had. */
  function DefaultReason(kind: string, reason: Option<string>): Option<string> {
    if kind == "modification" then Some(ModificationReason)
    else if kind == "addition" then Some(AdditionReason)
    else if kind == "deletion" then Some(DeletionReason)
    else reason
  }

  /** The reason the loop attaches to a diff change: the first matching
      correction's reason, unless that is missing or empty. */
  function ReasonFor(change: DiffChange, corrections: seq<Correction>): Option<string> {
    var m := FirstMatch(corrections, change.before);
    var reason := if m.Some? then corrections[m.value].reason else None;
    if reason.None? || reason.value == [] then DefaultReason(change.kind, reason) else reason
  }

  /** The enrichment loop of `analyze_text`. */
  method Enrich(changes: seq<DiffChange>, corrections: seq<Correction>) returns (items: seq<ChangeItem>)
    ensures |items| == |changes|
    ensures forall k :: 0 <= k < |changes| ==>
      items[k] == ChangeItem(changes[k].kind, changes[k].before, changes[k].after, ReasonFor(changes[k], corrections))
  {
    items := [];
    for k := 0 to |changes|
      invariant |items| == k
      invariant forall j :: 0 <= j < k ==>
        items[j] == ChangeItem(changes[j].kind, changes[j].before, changes[j].after, ReasonFor(changes[j], corrections))
    {
      var change := changes[k];
      var reason: Option<string> := None;
      var m := FirstMatch(corrections, change.before);
      if m.Some? {
        reason := corrections[m.value].reason;
      }
      if reason.None? || reason.value == [] {
        if change.kind == "modification" {
          reason := Some(ModificationReason);
        } else if change.kind == "addition" {
          reason := Some(AdditionReason);
        } else if change.kind == "deletion" {
          reason := Some(DeletionReason);
        }
      }
      items := items + [ChangeItem(change.kind, change.before, change.after, reason)];
    }
  }

  /** Without a correction of the same "before" text, a change gets the
      default reason of its type, and no reason for another type. */
  lemma ReasonWithoutMatch(change: DiffChange, corrections: seq<Correction>)
    requires forall j :: 0 <= j < |corrections| ==> corrections[j].before != change.before
    ensures ReasonFor(change, corrections) == DefaultReason(change.kind, None)
  {
  }

  /** With a first matching correction at index i, its non-empty reason is
      used; a missing or empty one gives way to the default of the type,
      and another type keeps it as it is. */
  lemma ReasonFromFirstMatch(change: DiffChange, corrections: seq<Correction>, i: nat)
    requires i < |corrections| && corrections[i].before == change.before
    requires forall j :: 0 <= j < i ==> corrections[j].before != change.before
    ensures var c := corrections[i].reason;
      && (c.Some? && c.value != [] ==> ReasonFor(change, corrections) == c)
      && (c.None? || c.value == [] ==> ReasonFor(change, corrections) == DefaultReason(change.kind, c))
  {
    var m := FirstMatch(corrections, change.before);
    assert m == Some(i);
  }

  /** Every change of the three types the diff engine produces ends up
      with a non-empty reason. */
  lemma DiffChangesHaveReasons(change: DiffChange, corrections: seq<Correction>)
    requires change.kind == "modification" || change.kind == "addition" || change.kind == "deletion"
    ensures var r := ReasonFor(change, corrections); r.Some? && r.value != []
  {
    assert |ModificationReason| > 0 && |AdditionReason| > 0 && |DeletionReason| > 0;
  }

  // ---------------------------------------------------------------------------
  // analyze_text

  /** What the libraries and the engines this model leaves out answer for
      one request. */
  datatype Engines = Engines(
    tokenized: Option<seq<string>>,                 // the tokenizer's sentences for the normalised text
    entities: seq<NE.Entity>,                       // the recogniser's entities in the normalised text
    nli: Option<NE.NliModel>,                       // the cross-encoder, None when it did not load
    readability: real,                              // Flesch reading ease of the text
    blob: Option<seq<seq<string>>>,                 // TextBlob's words per sentence, None when it raises
    spell: string -> string,                        // TextBlob's word correction
    grammarError: string,                           // the text of TextBlob's error
    toneLoaded: bool,                               // whether the tone model loaded
    toneLoadError: string,                          // and the text of its load error
    decode: string -> Result<string, string>,       // the tone model's decoded output for a prompt
    baseModel: string,                              // the tone model's base model name
    correct: string -> (string, seq<Correction>),   // the correction engine: corrected text and changes
    diff: (string, string) -> seq<DiffChange>)      // the diff engine

  datatype AnalyzeResponse = AnalyzeResponse(consistencyScore: real, readabilityScore: real, detectedTone: string,
                                             modifiedText: string, changes: seq<ChangeItem>, explanation: seq<string>)

  /** The structure suggestions the pipeline reports. */
  function StructureSuggestions(text: string, e: Engines): seq<string> {
    var sentences := TU.SplitSentencesWith(TU.NormalizeText(text), e.tokenized);
    SE.Assemble(SE.Grammar(e.blob, e.spell, e.grammarError), e.readability, |SE.LongOnes(sentences, SE.LongThreshold)|)
  }

  /** The tone engine's result for the request. */
  function ToneOf(text: string, targetTone: string, e: Engines): TE.ToneResult {
    TE.Analyze(text, targetTone, e.toneLoaded, e.toneLoadError, e.decode, e.baseModel)
  }

  /** `analyze_text`. */
  method AnalyzeText(text: string, targetTone: string, e: Engines) returns (r: AnalyzeResponse)
    ensures var s := StructureSuggestions(text, e);
      && |r.explanation| == 3 + |s|
      && (forall k :: 0 <= k < |s| ==> r.explanation[1 + k] == EE.SuggestionLine(s[k]))
      && r.explanation[|r.explanation| - 2] == EE.ToneLine(ToneOf(text, targetTone, e).appliedReplacements)
    ensures var corrected := e.correct(ToneOf(text, targetTone, e).modifiedText);
      var diff := e.diff(text, corrected.0);
      && r.modifiedText == corrected.0
      && |r.changes| == |diff|
      && (forall k :: 0 <= k < |diff| ==>
            r.changes[k] == ChangeItem(diff[k].kind, diff[k].before, diff[k].after, ReasonFor(diff[k], corrected.1)))
      && r.explanation[|r.explanation| - 1] == EE.ChangesLine(|diff|)
    ensures r.detectedTone == TE.DetectTone(text)
    ensures r.readabilityScore == e.readability
    ensures r.consistencyScore == NE.Narrative(text, e.tokenized, e.entities, e.nli).consistencyScore
    ensures 0.0 <= r.consistencyScore <= 1.0
    ensures r.explanation[0] == if r.consistencyScore < EE.LowConsistency then EE.WarningLine(r.consistencyScore)
                                else EE.StatusLine(r.consistencyScore)
    ensures e.nli.None? ==> r.explanation[0] == EE.StatusLine(r.consistencyScore)
  {
    var narrative := RunNarrative(text, e);
    var structure := RunStructure(text, e);
    var tone := RunTone(text, targetTone, e);
    var corrected := e.correct(tone.modifiedText);
    var finalText := corrected.0;
    var diff := e.diff(text, finalText);
    var changes := Enrich(diff, corrected.1);
    var explanation := EE.Explain(narrative.consistencyScore, structure.suggestions, tone.appliedReplacements, |diff|);
    r := AnalyzeResponse(narrative.consistencyScore, structure.readabilityScore, tone.detectedTone, finalText,
                         changes, explanation);
  }

  /** The narrative engine's step: its result for the request, a score in
      [0, 1], and at least 0.5 without the cross-encoder. */
  method RunNarrative(text: string, e: Engines) returns (narrative: NE.NarrativeResult)
    ensures narrative == NE.Narrative(text, e.tokenized, e.entities, e.nli)
    ensures 0.0 <= narrative.consistencyScore <= 1.0
    ensures e.nli.None? ==> narrative.consistencyScore >= EE.LowConsistency
  {
    narrative := NE.Analyze(text, e.tokenized, e.entities, e.nli);
    if e.nli.None? {
      NoModelStatus(narrative);
    }
  }

  /** The structure engine's step. */
  method RunStructure(text: string, e: Engines) returns (structure: SE.StructureResult)
    ensures structure.readabilityScore == e.readability
    ensures structure.suggestions == StructureSuggestions(text, e)
  {
    structure := SE.Analyze(text, e.tokenized, e.readability, e.blob, e.spell, e.grammarError);
  }

  /** The tone engine's step, which reports the tone detected in the
      original text. */
  method RunTone(text: string, targetTone: string, e: Engines) returns (tone: TE.ToneResult)
    ensures tone == ToneOf(text, targetTone, e)
    ensures tone.detectedTone == TE.DetectTone(text)
  {
    tone := ToneOf(text, targetTone, e);
  }

  /** Without the cross-encoder the score is 1.0 or the mean of 0.5s, so
      the explanation never opens with the warning. */
  lemma NoModelStatus(narrative: NE.NarrativeResult)
    requires forall k :: 0 <= k < |narrative.pairwiseSimilarities| ==> narrative.pairwiseSimilarities[k] == 0.5
    requires narrative.pairwiseSimilarities == [] ==> narrative.consistencyScore == 1.0
    requires narrative.pairwiseSimilarities != [] ==> narrative.consistencyScore == NE.Mean(narrative.pairwiseSimilarities)
    ensures narrative.consistencyScore >= EE.LowConsistency
  {
    if narrative.pairwiseSimilarities != [] {
      NE.NoModelScore(narrative.pairwiseSimilarities);
    }
  }
}
