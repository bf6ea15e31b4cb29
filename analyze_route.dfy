/** The web back end's `POST /api/analyze` route: it validates the text,
    maps the writing style to the engine's target tone, calls the engine,
    shapes the reply for the front end and records a session. How the
    engine call ended and whether the session could be stored are
    parameters; the stored sessions are a list the handler appends to. */
module AnalyzeRoute {
  import opened Wrappers
  import opened Strings
  import opened JsValues

  const PreviewLength := 160
  const TitleWords := 6
  const Untitled := "Untitled session"
  const MissingText := "Text is required for analysis."

  /** `toneMap[style] || "neutral"`. */
  function TargetTone(style: string): (tone: string)
    ensures tone == "neutral" || tone == "formal" || tone == "informal"
  {
    match style
    case "clear" => "neutral"
    case "formal" => "formal"
    case "creative" => "informal"
    case "persuasive" => "formal"
    case _ => "neutral"
  }

  /** The fields of the engine's reply the route reads; a field the reply
      lacks is None, and `changes` is kept as opaque records. */
  datatype EngineReply = EngineReply(
    modifiedText: Option<string>,
    consistencyScore: Option<real>,
    detectedTone: Option<string>,
    explanation: Option<seq<string>>,
    changes: Option<seq<string>>)

  /** How the engine call ends: with a reply, with an error status (its
      status text), or with an exception from the request or from reading
      the reply (its message). */
  datatype EngineCall = Answered(reply: EngineReply) | ErrorStatus(statusText: string) | Thrown(message: string)

  /** The start of the error the route raises for an error status. */
  const EngineErrorPrefix := "AI Engine error: "

  /** The request body sent to the engine. */
  datatype EngineRequest = EngineRequest(text: string, targetTone: string)

  datatype Consistency = Consistency(score: int, sentenceCount: nat, wordCount: nat, tone: string)

  datatype Diff = Diff(beforeWords: nat, afterWords: nat, beforePreview: string, afterPreview: string, changes: seq<string>)

  datatype Body =
    | ErrorBody(error: string)
    | Analysis(output: string, consistency: Consistency, explanation: seq<string>, diff: Diff)

  /** The session document `Session.create` stores. */
  datatype SessionRecord = SessionRecord(
    userId: string, title: string, style: string, preview: string,
    input: string, output: string, consistency: Consistency)

  /** Everything the route does for one request: the status and body of the
      response, the request sent to the engine (if any), the session saved
      (if any). */
  datatype Outcome = Outcome(status: int, body: Body, upstream: Option<EngineRequest>, saved: Option<SessionRecord>)

  /** `words.slice(0, 6).join(" ") || "Untitled session"`. */
  function Title(words: seq<string>): string {
    var head := JoinWith(Slice(words, TitleWords), " ");
    if head == [] then Untitled else head
  }

  predicate Blank(text: Option<string>) {
    text.None? || AllIn(JsSpace, text.value)
  }

  /** The handler. `text` and `style` are the body's fields (None when
      absent); `call` is how the engine call ended; `saveError` is the
      message `Session.create` fails with, None when the session is stored.
      Every error the handler raises ends in its `catch`: a 500 whose body
      carries the error's message. A null style is taken as absent here:
      the destructuring default "clear" replaces only an undefined style,
      while a null one maps to "neutral" and is echoed as the tone and the
      session's style. */
  function Analyze(userId: string, text: Option<string>, style: Option<string>, call: EngineCall,
                   saveError: Option<string>): Outcome {
    if Blank(text) then Outcome(400, ErrorBody(MissingText), None, None)
    else
      var t := text.value;
      var st := if style.Some? then style.value else "clear";
      var request := EngineRequest(t, TargetTone(st));
      match call
      case ErrorStatus(statusText) => Outcome(500, ErrorBody(EngineErrorPrefix + statusText), Some(request), None)
      case Thrown(message) => Outcome(500, ErrorBody(message), Some(request), None)
      case Answered(r) =>
        var words := SplitWords(t);
        var output := OrElse(r.modifiedText, t);
        var consistency := Consistency(Percent(r.consistencyScore), |SplitSentences(t)|, |words|, OrElse(r.detectedTone, st));
        var diff := Diff(|words|, |SplitWords(output)|, Slice(t, PreviewLength), Slice(output, PreviewLength),
                         if r.changes.Some? then r.changes.value else []);
        var explanation := if r.explanation.Some? then r.explanation.value else [];
        var saved := SessionRecord(userId, Title(words), st, Slice(output, PreviewLength), t, output, consistency);
        if saveError.Some? then Outcome(500, ErrorBody(saveError.value), Some(request), None)
        else Outcome(200, Analysis(output, consistency, explanation, diff), Some(request), Some(saved))
  }

  // ---------------------------------------------------------------------------
  // Properties

  /** Clear, formal, creative and persuasive map to neutral, formal,
      informal and formal; every other style to neutral. */
  lemma ToneMapCases(style: string)
    ensures style == "clear" ==> TargetTone(style) == "neutral"
    ensures style == "formal" || style == "persuasive" ==> TargetTone(style) == "formal"
    ensures style == "creative" ==> TargetTone(style) == "informal"
    ensures style !in {"clear", "formal", "creative", "persuasive"} ==> TargetTone(style) == "neutral"
  {
  }

  /** A missing or blank text is answered 400 without calling the engine or
      saving anything; any other text is sent to the engine with the style's
      tone (the style defaults to clear). */
  lemma ValidationGate(userId: string, text: Option<string>, style: Option<string>, call: EngineCall,
                       saveError: Option<string>)
    ensures var o := Analyze(userId, text, style, call, saveError);
      && (Blank(text) <==> o.status == 400)
      && (Blank(text) ==> o.upstream.None? && o.saved.None? && o.body == ErrorBody(MissingText))
      && (!Blank(text) ==> o.upstream == Some(EngineRequest(text.value, TargetTone(if style.Some? then style.value else "clear"))))
  {
  }

  /** A valid request is answered 200, saving exactly one session, iff the
      engine replied and the session was stored; otherwise it is a 500 that
      saves nothing and carries the error's message: "AI Engine error: "
      and the status text for an error status, the exception's message for
      a failed request, the database's message for a failed save. */
  lemma EngineFailure(userId: string, text: Option<string>, style: Option<string>, call: EngineCall,
                      saveError: Option<string>)
    requires !Blank(text)
    ensures var o := Analyze(userId, text, style, call, saveError);
      && (o.status == 200 <==> call.Answered? && saveError.None?)
      && (o.status == 200 ==> o.saved.Some? && o.body.Analysis?)
      && (o.status != 200 ==> o.status == 500 && o.saved.None?)
      && (call.ErrorStatus? ==> o.body == ErrorBody(EngineErrorPrefix + call.statusText))
      && (call.Thrown? ==> o.body == ErrorBody(call.message))
      && (call.Answered? && saveError.Some? ==> o.body == ErrorBody(saveError.value))
  {
  }

  /** The word count counts whitespace-free, non-empty words which together
      are the text with its whitespace deleted; the sentence count counts
      non-empty stretches free of `.`, `!` and `?`. */
  lemma CountsMeaning(userId: string, text: Option<string>, style: Option<string>, r: EngineReply)
    requires !Blank(text)
    ensures var o := Analyze(userId, text, style, Answered(r), None);
      var t := text.value;
      && o.body.consistency.wordCount == |SplitWords(t)|
      && o.body.consistency.sentenceCount == |SplitSentences(t)|
      && (forall w :: w in SplitWords(t) ==> w != [] && NoneIn(JsSpace, w))
      && Concat(SplitWords(t)) == Remove(JsSpace, Trim(JsSpace, t))
      && (forall x :: x in SplitSentences(t) ==> x != [] && NoneIn(SentenceEnd, x))
      && Concat(SplitSentences(t)) == Remove(SentenceEnd, t)
      && o.body.diff.beforeWords == o.body.consistency.wordCount
  {
    SplitsMeaning(text.value);
  }

  /** The output is the engine's rewrite, or the text itself when the
      rewrite is missing or empty; the tone is the detected one or the style;
      explanation and changes default to empty lists; the previews are the
      first 160 characters of text and output, and the saved preview is the
      output's. */
  lemma ResponseMapping(userId: string, text: Option<string>, style: Option<string>, r: EngineReply)
    requires !Blank(text)
    ensures var o := Analyze(userId, text, style, Answered(r), None);
      var t := text.value;
      var st := if style.Some? then style.value else "clear";
      && o.body.output == (if r.modifiedText.Some? && r.modifiedText.value != [] then r.modifiedText.value else t)
      && o.body.consistency.tone == (if r.detectedTone.Some? && r.detectedTone.value != [] then r.detectedTone.value else st)
      && (r.explanation.None? ==> o.body.explanation == [])
      && (r.changes.None? ==> o.body.diff.changes == [])
      && |o.body.diff.beforePreview| <= 160 && IsPrefix(o.body.diff.beforePreview, t)
      && |o.body.diff.afterPreview| <= 160 && IsPrefix(o.body.diff.afterPreview, o.body.output)
      && (|t| >= 160 ==> |o.body.diff.beforePreview| == 160)
      && o.saved.value.preview == o.body.diff.afterPreview
      && o.saved.value.input == t && o.saved.value.output == o.body.output && o.saved.value.style == st
  {
  }

  /** For a text that passes validation the title is the first six words
      joined by single spaces, which starts with the first word: the
      "Untitled session" fallback is never taken. */
  lemma TitleOfWords(userId: string, text: Option<string>, style: Option<string>, r: EngineReply)
    requires !Blank(text)
    ensures var o := Analyze(userId, text, style, Answered(r), None);
      var words := SplitWords(text.value);
      && words != []
      && o.saved.value.title == JoinWith(Slice(words, TitleWords), " ")
      && IsPrefix(words[0], o.saved.value.title)
  {
    var words := SplitWords(text.value);
    SplitWordsNonEmpty(text.value);
    var head := Slice(words, TitleWords);
    assert head[0] == words[0];
    JoinWithHead(head, " ");
  }

  /** The route's store of sessions. */
  class SessionStore {
    var records: seq<SessionRecord>

    constructor()
      ensures records == []
    {
      records := [];
    }

    /** The route handler: answers the request and appends the session it
        saves, if any. */
    method HandleAnalyze(userId: string, text: Option<string>, style: Option<string>, call: EngineCall,
                         saveError: Option<string>)
      returns (status: int, body: Body)
      modifies this
      ensures var o := Analyze(userId, text, style, call, saveError);
        && status == o.status && body == o.body
        && records == old(records) + (if o.saved.Some? then [o.saved.value] else [])
    {
      var o := Analyze(userId, text, style, call, saveError);
      if o.saved.Some? {
        records := records + [o.saved.value];
      }
      status, body := o.status, o.body;
    }
  }
}
