/** The browser extension's content script: the guard on the popup's
    analyze request, the settings it reads, the normalisation of the
    analysis reply into what the result panel shows, the de-duplication of
    explanation lines, and the HTML escaping applied to everything the panel
    renders. Storage and message passing are parameters. */
module ExtensionContent {
  import opened Wrappers
  import opened Strings
  import opened JsValues

  // ---------------------------------------------------------------------------
  // escapeHtml

  const Amp := "&amp;"
  const Lt := "&lt;"
  const Gt := "&gt;"
  const Quot := "&quot;"
  const Apos := "&#39;"

  /** `s.replaceAll(c, e)` for a one-character pattern. */
  function ReplaceAll(s: string, c: char, e: string): (r: string)
    ensures c !in s ==> r == s
  {
    if s == [] then []
    else (if s[0] == c then e else [s[0]]) + ReplaceAll(s[1..], c, e)
  }

  /** `escapeHtml`: five passes, `&` first. */
  function EscapeHtml(s: string): string {
    ReplaceAll(ReplaceAll(ReplaceAll(ReplaceAll(ReplaceAll(s, '&', Amp), '<', Lt), '>', Gt), '"', Quot), '\'', Apos)
  }

  /** What one character becomes. */
  function Entity(c: char): string {
    if c == '&' then Amp
    else if c == '<' then Lt
    else if c == '>' then Gt
    else if c == '"' then Quot
    else if c == '\'' then Apos
    else [c]
  }

  /** The character-by-character escaping. */
  function Escaped(s: string): string {
    if s == [] then [] else Entity(s[0]) + Escaped(s[1..])
  }

  predicate Raw(c: char) {
    c == '<' || c == '>' || c == '"' || c == '\''
  }

  lemma {:induction false} ReplaceAllAppend(a: string, b: string, c: char, e: string)
    ensures ReplaceAll(a + b, c, e) == ReplaceAll(a, c, e) + ReplaceAll(b, c, e)
    decreases |a|
  {
    if a == [] {
      assert a + b == b;
    } else {
      assert (a + b)[1..] == a[1..] + b;
      ReplaceAllAppend(a[1..], b, c, e);
    }
  }

  lemma EscapeHtmlAppend(a: string, b: string)
    ensures EscapeHtml(a + b) == EscapeHtml(a) + EscapeHtml(b)
  {
    var a1, b1 := ReplaceAll(a, '&', Amp), ReplaceAll(b, '&', Amp);
    ReplaceAllAppend(a, b, '&', Amp);
    var a2, b2 := ReplaceAll(a1, '<', Lt), ReplaceAll(b1, '<', Lt);
    ReplaceAllAppend(a1, b1, '<', Lt);
    var a3, b3 := ReplaceAll(a2, '>', Gt), ReplaceAll(b2, '>', Gt);
    ReplaceAllAppend(a2, b2, '>', Gt);
    var a4, b4 := ReplaceAll(a3, '"', Quot), ReplaceAll(b3, '"', Quot);
    ReplaceAllAppend(a3, b3, '"', Quot);
    ReplaceAllAppend(a4, b4, '\'', Apos);
  }

  lemma ReplaceOne(c: char, d: char, e: string)
    ensures ReplaceAll([c], d, e) == if c == d then e else [c]
  {
    assert [c][1..] == [];
  }

  lemma EntityLetters()
    ensures Amp == ['&', 'a', 'm', 'p', ';'] && Lt == ['&', 'l', 't', ';'] && Gt == ['&', 'g', 't', ';']
    ensures Quot == ['&', 'q', 'u', 'o', 't', ';'] && Apos == ['&', '#', '3', '9', ';']
  {
  }

  /** Passes after the one that produced an entity leave it alone. */
  lemma EscapeHtmlChar(c: char)
    ensures EscapeHtml([c]) == Entity(c)
  {
    EntityLetters();
    ReplaceOne(c, '&', Amp);
    if c == '&' {
      assert '<' !in Amp && '>' !in Amp && '"' !in Amp && '\'' !in Amp;
    } else {
      ReplaceOne(c, '<', Lt);
      if c == '<' {
        assert '>' !in Lt && '"' !in Lt && '\'' !in Lt;
      } else {
        ReplaceOne(c, '>', Gt);
        if c == '>' {
          assert '"' !in Gt && '\'' !in Gt;
        } else {
          ReplaceOne(c, '"', Quot);
          if c == '"' {
            assert '\'' !in Quot;
          } else {
            ReplaceOne(c, '\'', Apos);
          }
        }
      }
    }
  }

  /** The five passes are the character-by-character escaping. */
  lemma {:induction false} EscapeHtmlIsPerChar(s: string)
    ensures EscapeHtml(s) == Escaped(s)
    decreases |s|
  {
    if s == [] {
    } else {
      assert s == [s[0]] + s[1..];
      EscapeHtmlAppend([s[0]], s[1..]);
      EscapeHtmlChar(s[0]);
      EscapeHtmlIsPerChar(s[1..]);
    }
  }

  /** The escaped text holds no raw `<`, `>`, `"` or `'`. */
  lemma {:induction false} EscapedHasNoRaw(s: string)
    ensures forall i :: 0 <= i < |EscapeHtml(s)| ==> !Raw(EscapeHtml(s)[i])
    decreases |s|
  {
    EscapeHtmlIsPerChar(s);
    EscapedNoRaw(s);
  }

  lemma {:induction false} EscapedNoRaw(s: string)
    ensures forall i :: 0 <= i < |Escaped(s)| ==> !Raw(Escaped(s)[i])
    decreases |s|
  {
    if s != [] {
      EscapedNoRaw(s[1..]);
      var e := Entity(s[0]);
      assert Amp == ['&', 'a', 'm', 'p', ';'];
      assert Lt == ['&', 'l', 't', ';'];
      assert Gt == ['&', 'g', 't', ';'];
      assert Quot == ['&', 'q', 'u', 'o', 't', ';'];
      assert Apos == ['&', '#', '3', '9', ';'];
      assert forall i :: 0 <= i < |e| ==> !Raw(e[i]);
      var r := Escaped(s);
      assert r == e + Escaped(s[1..]);
      forall i | 0 <= i < |r| ensures !Raw(r[i]) {
        if i >= |e| {
          assert r[i] == Escaped(s[1..])[i - |e|];
        }
      }
    }
  }

  /** The decoder of the five entities: the partner of the escaping. */
  function Unescape(s: string): string
    decreases |s|
  {
    if s == [] then []
    else if IsPrefix(Amp, s) then ['&'] + Unescape(s[|Amp|..])
    else if IsPrefix(Lt, s) then ['<'] + Unescape(s[|Lt|..])
    else if IsPrefix(Gt, s) then ['>'] + Unescape(s[|Gt|..])
    else if IsPrefix(Quot, s) then ['"'] + Unescape(s[|Quot|..])
    else if IsPrefix(Apos, s) then ['\''] + Unescape(s[|Apos|..])
    else [s[0]] + Unescape(s[1..])
  }

  lemma UnescapePlain(c: char, t: string)
    requires c != '&' && !Raw(c)
    ensures Unescape(Entity(c) + t) == [c] + Unescape(t)
  {
    var s := [c] + t;
    assert s[0] == c && s[1..] == t;
    assert Amp[0] == '&' && Lt[0] == '&' && Gt[0] == '&' && Quot[0] == '&' && Apos[0] == '&';
  }

  lemma UnescapeAmp(t: string)
    ensures Unescape(Amp + t) == ['&'] + Unescape(t)
  {
    var s := Amp + t;
    assert s[..|Amp|] == Amp && s[|Amp|..] == t;
  }

  lemma UnescapeLt(t: string)
    ensures Unescape(Lt + t) == ['<'] + Unescape(t)
  {
    var s := Lt + t;
    assert s[1] == 'l' && Amp[1] == 'a';
    assert s[..|Lt|] == Lt && s[|Lt|..] == t;
  }

  lemma UnescapeGt(t: string)
    ensures Unescape(Gt + t) == ['>'] + Unescape(t)
  {
    var s := Gt + t;
    assert s[1] == 'g' && Amp[1] == 'a' && Lt[1] == 'l';
    assert s[..|Gt|] == Gt && s[|Gt|..] == t;
  }

  lemma UnescapeQuot(t: string)
    ensures Unescape(Quot + t) == ['"'] + Unescape(t)
  {
    var s := Quot + t;
    assert s[1] == 'q' && Amp[1] == 'a' && Lt[1] == 'l' && Gt[1] == 'g';
    assert s[..|Quot|] == Quot && s[|Quot|..] == t;
  }

  lemma UnescapeApos(t: string)
    ensures Unescape(Apos + t) == ['\''] + Unescape(t)
  {
    var s := Apos + t;
    assert s[1] == '#' && Amp[1] == 'a' && Lt[1] == 'l' && Gt[1] == 'g' && Quot[1] == 'q';
    assert s[..|Apos|] == Apos && s[|Apos|..] == t;
  }

  lemma UnescapeEntity(c: char, t: string)
    ensures Unescape(Entity(c) + t) == [c] + Unescape(t)
  {
    if c == '&' { UnescapeAmp(t); }
    else if c == '<' { UnescapeLt(t); }
    else if c == '>' { UnescapeGt(t); }
    else if c == '"' { UnescapeQuot(t); }
    else if c == '\'' { UnescapeApos(t); }
    else { UnescapePlain(c, t); }
  }

  /** Decoding the escaped text gives the text back. */
  lemma {:induction false} EscapeRoundTrip(s: string)
    ensures Unescape(EscapeHtml(s)) == s
    decreases |s|
  {
    EscapeHtmlIsPerChar(s);
    EscapedRoundTrip(s);
  }

  lemma {:induction false} EscapedRoundTrip(s: string)
    ensures Unescape(Escaped(s)) == s
    decreases |s|
  {
    if s != [] {
      UnescapeEntity(s[0], Escaped(s[1..]));
      EscapedRoundTrip(s[1..]);
    }
  }

  /** Different texts never escape to the same HTML. */
  lemma EscapeInjective(a: string, b: string)
    requires EscapeHtml(a) == EscapeHtml(b)
    ensures a == b
  {
    EscapeRoundTrip(a);
    EscapeRoundTrip(b);
  }

  // ---------------------------------------------------------------------------
  // dedupeTrim

  /** The lines `dedupeTrim` keeps: trimmed, non-empty, pairwise distinct. */
  predicate Clean(xs: seq<string>) {
    && (forall i :: 0 <= i < |xs| ==> xs[i] != [] && IsTrimmed(JsSpace, xs[i]))
    && (forall i, j :: 0 <= i < j < |xs| ==> xs[i] != xs[j])
  }

  /** `dedupeTrim`, item by item from the left: each trimmed item is kept
      unless it is empty or was kept before. */
  function Dedupe(items: seq<string>): seq<string>
    decreases |items|
  {
    if items == [] then []
    else
      var prev := Dedupe(items[..|items| - 1]);
      var v := Trim(JsSpace, items[|items| - 1]);
      if v == [] || v in prev then prev else prev + [v]
  }

  /** The kept lines are clean. */
  lemma {:induction false} DedupeClean(items: seq<string>)
    ensures Clean(Dedupe(items))
    decreases |items|
  {
    if items != [] {
      var prev := Dedupe(items[..|items| - 1]);
      var v := Trim(JsSpace, items[|items| - 1]);
      DedupeClean(items[..|items| - 1]);
      TrimProps(JsSpace, items[|items| - 1]);
      if v != [] && v !in prev {
        CleanSnoc(prev, v);
      }
    }
  }

  /** A new trimmed, non-empty line keeps a clean list clean. */
  lemma CleanSnoc(xs: seq<string>, v: string)
    requires Clean(xs) && v != [] && IsTrimmed(JsSpace, v) && v !in xs
    ensures Clean(xs + [v])
  {
    var ys := xs + [v];
    forall i | 0 <= i < |xs| ensures ys[i] == xs[i] {
    }
  }

  /** `f` applied to every item, built from the back as `Dedupe` is. */
  function MapBack<T, U>(f: T -> U, xs: seq<T>): (ys: seq<U>)
    ensures |ys| == |xs|
    decreases |xs|
  {
    if xs == [] then [] else MapBack(f, xs[..|xs| - 1]) + [f(xs[|xs| - 1])]
  }

  lemma {:induction false} MapBackAt<T, U>(f: T -> U, xs: seq<T>, i: nat)
    requires i < |xs|
    ensures MapBack(f, xs)[i] == f(xs[i])
    decreases |xs|
  {
    var init := xs[..|xs| - 1];
    if i < |init| {
      MapBackAt(f, init, i);
      assert xs[i] == init[i];
    }
  }

  function TrimJs(s: string): string {
    Trim(JsSpace, s)
  }

  /** The trims of the items, in order. */
  function Trims(items: seq<string>): (ts: seq<string>)
    ensures |ts| == |items|
  {
    MapBack(TrimJs, items)
  }

  lemma TrimsAt(items: seq<string>, i: nat)
    requires i < |items|
    ensures Trims(items)[i] == Trim(JsSpace, items[i])
  {
    MapBackAt(TrimJs, items, i);
  }

  /** A line is kept iff it is the non-empty trim of some item. */
  lemma {:induction false} DedupeMembers(items: seq<string>, v: string)
    ensures v in Dedupe(items) <==> v != [] && v in Trims(items)
    decreases |items|
  {
    if items != [] {
      DedupeMembers(items[..|items| - 1], v);
    }
  }

  /** Clean lines pass through unchanged. */
  lemma {:induction false} DedupeOfClean(xs: seq<string>)
    requires Clean(xs)
    ensures Dedupe(xs) == xs
    decreases |xs|
  {
    if xs != [] {
      var init := xs[..|xs| - 1];
      var last := xs[|xs| - 1];
      CleanSplit(xs);
      DedupeOfClean(init);
      TrimOfTrimmed(JsSpace, last);
      assert Dedupe(xs) == init + [last];
      assert init + [last] == xs;
    }
  }

  /** A clean list is a clean list followed by a new trimmed line. */
  lemma CleanSplit(xs: seq<string>)
    requires Clean(xs) && xs != []
    ensures var init, last := xs[..|xs| - 1], xs[|xs| - 1];
      Clean(init) && last != [] && IsTrimmed(JsSpace, last) && last !in init
  {
    var init, last := xs[..|xs| - 1], xs[|xs| - 1];
    forall i | 0 <= i < |init| ensures init[i] == xs[i] && init[i] != last {
      assert init[i] == xs[i];
    }
  }

  /** De-duplicating twice changes nothing. */
  lemma DedupeIdempotent(items: seq<string>)
    ensures Dedupe(Dedupe(items)) == Dedupe(items)
  {
    DedupeClean(items);
    DedupeOfClean(Dedupe(items));
  }

  /** The loop of `dedupeTrim`, with `seen` the set of kept lines. */
  method DedupeTrim(items: seq<string>) returns (out: seq<string>)
    ensures out == Dedupe(items)
  {
    out := [];
    var seen: set<string> := {};
    for i := 0 to |items|
      invariant out == Dedupe(items[..i])
      invariant seen == set x | x in out
    {
      assert items[..i + 1][..i] == items[..i];
      var v := Trim(JsSpace, items[i]);
      if v == [] {
        continue;
      }
      if v in seen {
        continue;
      }
      seen := seen + {v};
      out := out + [v];
    }
    assert items[..|items|] == items;
  }

  // ---------------------------------------------------------------------------
  // normalizeAnalyzeResponse

  /** An entry of the reply's `explanation` or `suggestions` array: a string
      or an object with an optional `reason` and its JSON text. */
  datatype Item = Text(s: string) | Record(reason: Option<string>, json: string)

  /** The reply's fields the panel reads; a field that is absent (or, for
      the two lists, is not an array) is None. */
  datatype Reply = Reply(
    consistencyScore: Option<real>,
    detectedTone: Option<string>,
    tone: Option<string>,
    style: Option<string>,
    explanation: Option<seq<Item>>,
    suggestions: Option<seq<Item>>,
    modifiedText: Option<string>,
    rewrittenText: Option<string>,
    rewrite: Option<string>,
    suggestedText: Option<string>)

  datatype Parsed = Parsed(score: int, wordCount: nat, sentenceCount: nat, tone: string, explanations: seq<string>, rewrite: string)

  const ObjectText := "[object Object]"

  /** `String(s)` for an `explanation` entry. */
  function ExplanationText(it: Item): string {
    match it
    case Text(s) => s
    case Record(_, _) => ObjectText
  }

  /** `typeof s === "string" ? s : s?.reason || JSON.stringify(s)`. */
  function SuggestionText(it: Item): string {
    match it
    case Text(s) => s
    case Record(reason, json) => OrElse(reason, json)
  }

  /** The lines collected before de-duplication. */
  function Collected(r: Reply): (xs: seq<string>)
    ensures r.explanation.Some? ==> |xs| == |r.explanation.value|
    ensures r.explanation.None? && r.suggestions.Some? ==> |xs| == |r.suggestions.value|
    ensures r.explanation.None? && r.suggestions.None? ==> xs == []
  {
    if r.explanation.Some? then seq(|r.explanation.value|, i requires 0 <= i < |r.explanation.value| => ExplanationText(r.explanation.value[i]))
    else if r.suggestions.Some? then seq(|r.suggestions.value|, i requires 0 <= i < |r.suggestions.value| => SuggestionText(r.suggestions.value[i]))
    else []
  }

  function RewriteOf(r: Reply): string {
    FirstTruthy([r.modifiedText, r.rewrittenText, r.rewrite, r.suggestedText], "")
  }

  function ToneOf(r: Reply): string {
    FirstTruthy([r.detectedTone, r.tone, r.style], "Neutral")
  }

  /** `normalizeAnalyzeResponse`. */
  function Normalized(text: string, r: Reply): Parsed {
    Parsed(Percent(r.consistencyScore), |SplitWords(text)|, |SplitSentences(text)|, ToneOf(r), Dedupe(Collected(r)), RewriteOf(r))
  }

  /** The collection loop of `normalizeAnalyzeResponse`. */
  method CollectExplanations(r: Reply) returns (xs: seq<string>)
    ensures xs == Collected(r)
  {
    xs := [];
    if r.explanation.Some? {
      var items := r.explanation.value;
      for i := 0 to |items|
        invariant xs == seq(i, j requires 0 <= j < i => ExplanationText(items[j]))
      {
        xs := xs + [ExplanationText(items[i])];
      }
    } else if r.suggestions.Some? {
      var items := r.suggestions.value;
      for i := 0 to |items|
        invariant xs == seq(i, j requires 0 <= j < i => SuggestionText(items[j]))
      {
        xs := xs + [SuggestionText(items[i])];
      }
    }
  }

  method NormalizeAnalyzeResponse(text: string, r: Reply) returns (p: Parsed)
    ensures p == Normalized(text, r)
  {
    var collected := CollectExplanations(r);
    var explanations := DedupeTrim(collected);
    p := Parsed(Percent(r.consistencyScore), |SplitWords(text)|, |SplitSentences(text)|, ToneOf(r), explanations, RewriteOf(r));
  }

  /** The explanation lines are clean and are exactly the non-empty trims
      of the collected lines. */
  lemma ExplanationsSource(text: string, r: Reply, v: string)
    ensures var p := Normalized(text, r);
      && Clean(p.explanations)
      && (v in p.explanations <==> v != [] && v in Trims(Collected(r)))
  {
    DedupeClean(Collected(r));
    DedupeMembers(Collected(r), v);
  }

  /** The collected lines are those of the `explanation` array when the
      reply has one, else those of `suggestions`: a string as is, an object
      by its non-empty reason or else its JSON text. */
  lemma CollectedLines(r: Reply, i: nat)
    ensures r.explanation.Some? && i < |r.explanation.value| ==>
      Collected(r)[i] == ExplanationText(r.explanation.value[i])
    ensures r.explanation.None? && r.suggestions.Some? && i < |r.suggestions.value| ==>
      Collected(r)[i] == SuggestionText(r.suggestions.value[i])
    ensures r.explanation.None? && r.suggestions.Some? && i < |r.suggestions.value| && r.suggestions.value[i].Record? ==>
      Collected(r)[i] == (if Truthy(r.suggestions.value[i].reason) then r.suggestions.value[i].reason.value else r.suggestions.value[i].json)
  {
  }

  /** The counts are those of the web back end: whitespace-free words of the
      trimmed text and stretches between `.`, `!` and `?`. */
  lemma NormalizedCounts(text: string, r: Reply)
    ensures var p := Normalized(text, r);
      && p.wordCount == |SplitWords(text)| && p.sentenceCount == |SplitSentences(text)|
      && Concat(SplitWords(text)) == Remove(JsSpace, Trim(JsSpace, text))
      && (forall w :: w in SplitWords(text) ==> w != [] && NoneIn(JsSpace, w))
  {
    SplitsMeaning(text);
  }

  /** The result panel offers "Replace Selection" iff the rewrite is
      non-empty, which is iff one of the four rewrite fields is a non-empty
      string; the first such field wins. */
  lemma ReplaceButton(text: string, r: Reply)
    ensures var p := Normalized(text, r);
      var fields := [r.modifiedText, r.rewrittenText, r.rewrite, r.suggestedText];
      && (p.rewrite != [] <==> exists i :: 0 <= i < 4 && Truthy(fields[i]))
      && (Truthy(r.modifiedText) ==> p.rewrite == r.modifiedText.value)
      && (!Truthy(r.modifiedText) && Truthy(r.rewrittenText) ==> p.rewrite == r.rewrittenText.value)
  {
    var fields := [r.modifiedText, r.rewrittenText, r.rewrite, r.suggestedText];
    if exists i :: 0 <= i < 4 && Truthy(fields[i]) {
      var i :| 0 <= i < 4 && Truthy(fields[i]);
      if Truthy(r.modifiedText) {
        FirstTruthyPicksFirst(fields, "", 0);
      } else if Truthy(r.rewrittenText) {
        FirstTruthyPicksFirst(fields, "", 1);
      } else if Truthy(r.rewrite) {
        FirstTruthyPicksFirst(fields, "", 2);
      } else {
        FirstTruthyPicksFirst(fields, "", 3);
      }
    } else {
      FirstTruthyNone(fields, "");
    }
  }

  /** The tone shown is the first of detected_tone, tone and style that is a
      non-empty string, else "Neutral". */
  lemma ToneShown(text: string, r: Reply)
    ensures var p := Normalized(text, r);
      && (Truthy(r.detectedTone) ==> p.tone == r.detectedTone.value)
      && (!Truthy(r.detectedTone) && Truthy(r.tone) ==> p.tone == r.tone.value)
      && (!Truthy(r.detectedTone) && !Truthy(r.tone) && Truthy(r.style) ==> p.tone == r.style.value)
      && (!Truthy(r.detectedTone) && !Truthy(r.tone) && !Truthy(r.style) ==> p.tone == "Neutral")
  {
    var fields := [r.detectedTone, r.tone, r.style];
    if Truthy(r.detectedTone) {
      FirstTruthyPicksFirst(fields, "Neutral", 0);
    } else if Truthy(r.tone) {
      FirstTruthyPicksFirst(fields, "Neutral", 1);
    } else if Truthy(r.style) {
      FirstTruthyPicksFirst(fields, "Neutral", 2);
    } else {
      FirstTruthyNone(fields, "Neutral");
    }
  }

  // ---------------------------------------------------------------------------
  // getSettings and the popup's request

  const DefaultBaseUrl := "http://localhost:8000"
  const DefaultPath := "/analyze"

  predicate ValidTone(t: string) {
    t == "formal" || t == "informal" || t == "neutral"
  }

  /** The stored settings; a key that is not set is None. */
  datatype Stored = Stored(apiBaseUrl: Option<string>, analyzePath: Option<string>, targetTone: Option<string>)

  datatype Settings = Settings(apiBaseUrl: string, analyzePath: string, targetTone: string)

  /** `getSettings`. */
  function GetSettings(d: Stored): Settings {
    var tone := OrElse(d.targetTone, "neutral");
    Settings(OrElse(d.apiBaseUrl, DefaultBaseUrl), OrElse(d.analyzePath, DefaultPath), if ValidTone(tone) then tone else "neutral")
  }

  /** The tone is always one the engine accepts: a valid stored tone is
      kept and anything else becomes neutral; unset or empty base URL and
      path take their defaults. */
  lemma SettingsSanitised(d: Stored)
    ensures var s := GetSettings(d);
      && ValidTone(s.targetTone)
      && (Truthy(d.targetTone) && ValidTone(d.targetTone.value) ==> s.targetTone == d.targetTone.value)
      && (!(Truthy(d.targetTone) && ValidTone(d.targetTone.value)) ==> s.targetTone == "neutral")
      && (Truthy(d.apiBaseUrl) ==> s.apiBaseUrl == d.apiBaseUrl.value)
      && (!Truthy(d.apiBaseUrl) ==> s.apiBaseUrl == DefaultBaseUrl)
      && (!Truthy(d.analyzePath) ==> s.analyzePath == DefaultPath)
  {
  }

  /** The reply to a `popup_action` message: `ok`, the message when not ok,
      and the text an analysis is started on. */
  datatype PopupReply = PopupReply(ok: bool, message: Option<string>, analyzed: Option<string>)

  const NoSelection := "No selected text."

  /** The `popup_action` branch of the message listener. */
  function PopupAction(requestText: Option<string>, lastSelected: string): PopupReply {
    var text := Trim(JsSpace, OrElse(requestText, lastSelected));
    if text == [] then PopupReply(false, Some(NoSelection), None)
    else PopupReply(true, None, Some(text))
  }

  /** An empty trimmed text is refused and starts no analysis; otherwise
      the analysis runs on the trimmed request text, or on the last
      selection when the request carries none. */
  lemma PopupGuard(requestText: Option<string>, lastSelected: string)
    ensures var p := PopupAction(requestText, lastSelected);
      var source := if Truthy(requestText) then requestText.value else lastSelected;
      && (p.ok <==> p.analyzed.Some?)
      && (p.ok <==> !AllIn(JsSpace, source))
      && (!p.ok ==> p.message == Some(NoSelection))
      && (p.ok ==> p.analyzed.value == Trim(JsSpace, source) && IsTrimmed(JsSpace, p.analyzed.value))
  {
    var source := if Truthy(requestText) then requestText.value else lastSelected;
    TrimProps(JsSpace, source);
  }

  /** The request `runAnalyze` has the background script send. */
  datatype AnalyzeRequest = AnalyzeRequest(url: string, text: string, targetTone: string)

  function RequestFor(s: Settings, text: string): AnalyzeRequest {
    AnalyzeRequest(s.apiBaseUrl + (if s.analyzePath != [] then s.analyzePath else DefaultPath), text,
      if s.targetTone != [] then s.targetTone else "neutral")
  }

  /** The request goes to the base URL followed by the path, with the
      settings' tone, which is always a valid one. */
  lemma RequestUsesSettings(d: Stored, text: string)
    ensures var s := GetSettings(d);
      var q := RequestFor(s, text);
      && q.url == s.apiBaseUrl + s.analyzePath
      && q.targetTone == s.targetTone && ValidTone(q.targetTone)
      && IsPrefix(s.apiBaseUrl, q.url)
  {
    assert DefaultPath != [];
  }
}
