/** The tone engine: marker-based tone detection, the normalisation of the
    requested tone, and the fallback around the rewriting model. The model
    itself is a parameter: whether it loaded (with the load error's text),
    and what it decodes for a prompt (or the text of the error it raises). */
module ToneEngine {
  import opened Wrappers
  import opened Strings

  const FormalMarkers: seq<string> := ["therefore", "however", "moreover", "thus", "regarding"]
  const InformalMarkers: seq<string> := ["gonna", "wanna", "kinda", "lol", "hey", "cool", "awesome"]

  predicate ValidTone(t: string) {
    t == "formal" || t == "informal" || t == "neutral"
  }

  predicate Distinct(xs: seq<string>) {
    forall i, j :: 0 <= i < j < |xs| ==> xs[i] != xs[j]
  }

  // ---------------------------------------------------------------------------
  // _detect_tone

  /** `sum(1 for token in markers if token in lowered)`. */
  function MarkerCount(markers: seq<string>, lowered: string): (n: nat)
    ensures n <= |markers|
  {
    if markers == [] then 0
    else (if Contains(lowered, markers[0]) then 1 else 0) + MarkerCount(markers[1..], lowered)
  }

  /** The markers that occur somewhere in the text. */
  function Found(markers: seq<string>, lowered: string): set<string> {
    set m | m in markers && Contains(lowered, m)
  }

  /** `_detect_tone`. */
  function DetectTone(text: string): (tone: string)
    ensures ValidTone(tone)
  {
    var lowered := Lower(text);
    var formal := MarkerCount(FormalMarkers, lowered);
    var informal := MarkerCount(InformalMarkers, lowered);
    if formal > informal then "formal"
    else if informal > formal then "informal"
    else "neutral"
  }

  lemma MarkersDistinct()
    ensures Distinct(FormalMarkers) && Distinct(InformalMarkers)
  {
  }

  /** Each marker counts once however often it occurs: the count is the
      number of distinct markers found. */
  lemma {:induction false} CountIsFound(markers: seq<string>, lowered: string)
    requires Distinct(markers)
    ensures MarkerCount(markers, lowered) == |Found(markers, lowered)|
    decreases |markers|
  {
    if markers != [] {
      var rest := markers[1..];
      CountIsFound(rest, lowered);
      FoundSplit(markers, lowered);
    }
  }

  /** The markers found are the first one, if found, and those found among
      the rest, which does not contain the first. */
  lemma FoundSplit(markers: seq<string>, lowered: string)
    requires Distinct(markers) && markers != []
    ensures var head := if Contains(lowered, markers[0]) then {markers[0]} else {};
      && Found(markers, lowered) == head + Found(markers[1..], lowered)
      && head !! Found(markers[1..], lowered)
  {
    var rest := markers[1..];
    assert markers[0] !in rest by {
      forall j | 0 <= j < |rest| ensures rest[j] != markers[0] { assert rest[j] == markers[j + 1]; }
    }
    assert markers == [markers[0]] + rest;
  }

  /** The detected tone is formal iff more formal than informal markers
      occur, informal iff the reverse, neutral on a tie; the counts are the
      numbers of distinct markers found in the lowercased text. */
  lemma DetectToneCases(text: string)
    ensures var lowered := Lower(text);
      var formal := |Found(FormalMarkers, lowered)|;
      var informal := |Found(InformalMarkers, lowered)|;
      && (DetectTone(text) == "formal" <==> formal > informal)
      && (DetectTone(text) == "informal" <==> informal > formal)
      && (DetectTone(text) == "neutral" <==> formal == informal)
  {
    MarkersDistinct();
    CountIsFound(FormalMarkers, Lower(text));
    CountIsFound(InformalMarkers, Lower(text));
  }

  /** Markers are matched inside words: "they" contains the informal
      marker "hey". */
  lemma MarkerInsideWord()
    ensures Contains("they", "hey") && "hey" in Found(InformalMarkers, "they")
  {
    ContainsAt("they", "hey", 1);
  }

  // ---------------------------------------------------------------------------
  // analyze

  /** `target_tone.lower().strip()`, with anything but the three tones
      replaced by neutral. */
  function NormalizeTarget(targetTone: string): (target: string)
    ensures ValidTone(target)
  {
    var t := Trim(PySpace, Lower(targetTone));
    if ValidTone(t) then t else "neutral"
  }

  /** The tones are lowercase and free of whitespace. */
  lemma ToneWords(t: string)
    requires ValidTone(t)
    ensures Lower(t) == t && IsTrimmed(PySpace, t)
  {
    if t == "formal" {
      FormalWord();
    } else if t == "informal" {
      InformalWord();
    } else {
      NeutralWord();
    }
  }

  lemma FormalWord()
    ensures Lower("formal") == "formal" && IsTrimmed(PySpace, "formal")
  {
    assert "formal" == ['f', 'o', 'r', 'm', 'a', 'l'];
  }

  lemma InformalWord()
    ensures Lower("informal") == "informal" && IsTrimmed(PySpace, "informal")
  {
    assert "informal" == ['i', 'n', 'f', 'o', 'r', 'm', 'a', 'l'];
  }

  lemma NeutralWord()
    ensures Lower("neutral") == "neutral" && IsTrimmed(PySpace, "neutral")
  {
    assert "neutral" == ['n', 'e', 'u', 't', 'r', 'a', 'l'];
  }

  /** A requested tone that lowercases and strips to one of the three is
      used, anything else becomes neutral, and a tone already spelled as one
      of the three is kept as it is. */
  lemma NormalizeTargetCases(targetTone: string)
    ensures var t := Trim(PySpace, Lower(targetTone));
      && (ValidTone(t) ==> NormalizeTarget(targetTone) == t)
      && (!ValidTone(t) ==> NormalizeTarget(targetTone) == "neutral")
    ensures ValidTone(targetTone) ==> NormalizeTarget(targetTone) == targetTone
  {
    if ValidTone(targetTone) {
      ToneWords(targetTone);
      TrimOfTrimmed(PySpace, targetTone);
    }
  }

  /** Normalising the requested tone twice is normalising it once. */
  lemma NormalizeTargetIdempotent(targetTone: string)
    ensures NormalizeTarget(NormalizeTarget(targetTone)) == NormalizeTarget(targetTone)
  {
    var n := NormalizeTarget(targetTone);
    ToneWords(n);
    TrimOfTrimmed(PySpace, n);
  }

  datatype ToneResult = ToneResult(detectedTone: string, modifiedText: string, appliedReplacements: seq<string>)

  /** The prompt `_rewrite_tone` gives the model. */
  function Prompt(text: string, target: string): string {
    "Rewrite the following text in a " + target + " tone. "
      + "Keep the meaning same and return only rewritten text:\n\n" + text
  }

  /** `_rewrite_tone`: an error when the model did not load, otherwise the
      model's stripped output or the error it raised. */
  function RewriteTone(text: string, target: string, loaded: bool, loadError: string,
                       decode: string -> Result<string, string>): (r: Result<string, string>)
    ensures r.Success? ==> IsTrimmed(PySpace, r.value)
  {
    if !loaded then Failure("Tone model not loaded: " + loadError)
    else match decode(Prompt(text, target))
      case Success(out) => TrimProps(PySpace, out); Success(Trim(PySpace, out))
      case Failure(e) => Failure(e)
  }

  /** `ToneControlEngine.analyze`. */
  function Analyze(text: string, targetTone: string, loaded: bool, loadError: string,
                   decode: string -> Result<string, string>, baseModel: string): ToneResult
  {
    AnalyzeFor(text, NormalizeTarget(targetTone), loaded, loadError, decode, baseModel)
  }

  /** The rest of `analyze`, once the target is normalised. */
  function AnalyzeFor(text: string, target: string, loaded: bool, loadError: string,
                      decode: string -> Result<string, string>, baseModel: string): ToneResult
  {
    var detected := DetectTone(text);
    match RewriteTone(text, target, loaded, loadError, decode)
    case Success(rewritten) =>
      ToneResult(detected, if rewritten != [] then rewritten else text, ["model_inference:" + baseModel + "+LoRA"])
    case Failure(e) =>
      ToneResult(detected, text, ["model_error:" + e])
  }

  /** The detected tone is reported whatever happens to the rewrite, and
      there is exactly one applied-replacement entry. The text comes back
      unchanged when the model did not load, when inference raises, or when
      the rewrite is blank (still reported as a model inference); otherwise
      it is the stripped rewrite, which is then non-empty. */
  lemma AnalyzeCases(text: string, targetTone: string, loaded: bool, loadError: string,
                     decode: string -> Result<string, string>, baseModel: string)
    ensures var r := Analyze(text, targetTone, loaded, loadError, decode, baseModel);
      var out := decode(Prompt(text, NormalizeTarget(targetTone)));
      && r.detectedTone == DetectTone(text)
      && |r.appliedReplacements| == 1
      && (!loaded ==> r.modifiedText == text && r.appliedReplacements == ["model_error:Tone model not loaded: " + loadError])
      && (loaded && out.Failure? ==> r.modifiedText == text && r.appliedReplacements == ["model_error:" + out.error])
      && (loaded && out.Success? && AllIn(PySpace, out.value) ==>
            r.modifiedText == text && r.appliedReplacements == ["model_inference:" + baseModel + "+LoRA"])
      && (loaded && out.Success? && !AllIn(PySpace, out.value) ==>
            r.modifiedText == Trim(PySpace, out.value) && r.modifiedText != [] && IsTrimmed(PySpace, r.modifiedText)
            && r.appliedReplacements == ["model_inference:" + baseModel + "+LoRA"])
  {
    var out := decode(Prompt(text, NormalizeTarget(targetTone)));
    if out.Success? {
      TrimProps(PySpace, out.value);
    }
    assert "model_error:" + ("Tone model not loaded: " + loadError) == "model_error:Tone model not loaded: " + loadError;
  }

  /** The requested tone matters only through its normalised form. */
  lemma AnalyzeSeesNormalTarget(text: string, t1: string, t2: string, loaded: bool, loadError: string,
                                decode: string -> Result<string, string>, baseModel: string)
    requires NormalizeTarget(t1) == NormalizeTarget(t2)
    ensures Analyze(text, t1, loaded, loadError, decode, baseModel) == Analyze(text, t2, loaded, loadError, decode, baseModel)
  {
  }
}
