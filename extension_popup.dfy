/** The extension's popup: the settings form it fills from storage and the
    values its Save button writes back, sanitised. The storage is a
    parameter; the form fields are strings. */
module ExtensionPopup {
  import opened Wrappers
  import opened Strings
  import opened JsValues
  import opened ExtensionContent

  /** `normalizePath(path, fallback)`. */
  function NormalizePath(path: Option<string>, fallback: string): string {
    var p := Trim(JsSpace, if path.Some? then path.value else "");
    if p == [] then fallback
    else if IsPrefix("/", p) then p
    else "/" + p
  }

  /** A blank path gives the fallback; any other path is trimmed and gets a
      leading "/" exactly when it lacks one. */
  lemma NormalizePathCases(path: Option<string>, fallback: string)
    ensures var p := Trim(JsSpace, if path.Some? then path.value else "");
      var r := NormalizePath(path, fallback);
      && (p == [] ==> r == fallback)
      && (p != [] && p[0] == '/' ==> r == p)
      && (p != [] && p[0] != '/' ==> r == ['/'] + p)
      && (p != [] ==> r[0] == '/' && r[|r| - |p|..] == p)
  {
  }

  /** With a fallback that starts with "/", the result always does. */
  lemma NormalizedStartsWithSlash(path: Option<string>, fallback: string)
    requires fallback != [] && fallback[0] == '/'
    ensures var r := NormalizePath(path, fallback); r != [] && r[0] == '/'
  {
    NormalizePathCases(path, fallback);
  }

  /** A path that is already trimmed, non-empty and rooted is kept. */
  lemma NormalizeRooted(p: string, fallback: string)
    requires p != [] && p[0] == '/' && IsTrimmed(JsSpace, p)
    ensures NormalizePath(Some(p), fallback) == p
  {
    TrimOfTrimmed(JsSpace, p);
  }

  /** Normalising twice is normalising once, for a fallback that is itself
      normal (as "/analyze" is). */
  lemma NormalizeIdempotent(path: Option<string>, fallback: string)
    requires fallback != [] && fallback[0] == '/' && IsTrimmed(JsSpace, fallback)
    ensures NormalizePath(Some(NormalizePath(path, fallback)), fallback) == NormalizePath(path, fallback)
  {
    var p := Trim(JsSpace, if path.Some? then path.value else "");
    TrimProps(JsSpace, if path.Some? then path.value else "");
    NormalizePathCases(path, fallback);
    if p == [] {
      NormalizeRooted(fallback, fallback);
    } else if p[0] == '/' {
      NormalizeRooted(p, fallback);
    } else {
      RootedTrimmed(p);
      NormalizeRooted(['/'] + p, fallback);
    }
  }

  /** Putting "/" in front of a trimmed, non-empty path keeps it trimmed. */
  lemma RootedTrimmed(p: string)
    requires p != [] && IsTrimmed(JsSpace, p)
    ensures IsTrimmed(JsSpace, ['/'] + p)
  {
    var r := ['/'] + p;
    assert r[|r| - 1] == p[|p| - 1];
  }

  /** The form's three fields. */
  datatype Form = Form(apiBase: string, analyzePath: string, targetTone: string)

  /** Filling the form from storage: defaults for unset or empty keys, the
      tone as stored. */
  function Load(d: Stored): Form {
    Form(OrElse(d.apiBaseUrl, DefaultBaseUrl), OrElse(d.analyzePath, DefaultPath), OrElse(d.targetTone, "neutral"))
  }

  /** The Save button's handler. */
  function Save(f: Form): Settings {
    var base := Trim(JsSpace, f.apiBase);
    Settings(if base != [] then base else DefaultBaseUrl,
      NormalizePath(Some(f.analyzePath), DefaultPath),
      if ValidTone(f.targetTone) then f.targetTone else "neutral")
  }

  function AsStored(s: Settings): Stored {
    Stored(Some(s.apiBaseUrl), Some(s.analyzePath), Some(s.targetTone))
  }

  lemma DefaultsNormal()
    ensures DefaultPath != [] && DefaultPath[0] == '/' && IsTrimmed(JsSpace, DefaultPath)
    ensures DefaultBaseUrl != [] && IsTrimmed(JsSpace, DefaultBaseUrl)
  {
    assert DefaultPath[0] == '/' && DefaultPath[|DefaultPath| - 1] == 'e';
    assert DefaultBaseUrl[0] == 'h' && DefaultBaseUrl[|DefaultBaseUrl| - 1] == '0';
  }

  /** What is saved is sanitised: a valid tone (anything else becomes
      neutral), the trimmed base URL or the default when blank, and a path
      that starts with "/". */
  lemma SaveSanitises(f: Form)
    ensures var s := Save(f);
      && ValidTone(s.targetTone)
      && (ValidTone(f.targetTone) ==> s.targetTone == f.targetTone)
      && (!ValidTone(f.targetTone) ==> s.targetTone == "neutral")
      && (AllIn(JsSpace, f.apiBase) ==> s.apiBaseUrl == DefaultBaseUrl)
      && (!AllIn(JsSpace, f.apiBase) ==> s.apiBaseUrl == Trim(JsSpace, f.apiBase))
      && s.analyzePath != [] && s.analyzePath[0] == '/'
  {
    TrimProps(JsSpace, f.apiBase);
    DefaultsNormal();
    NormalizedStartsWithSlash(Some(f.analyzePath), DefaultPath);
  }

  /** Saved settings survive a reload of the popup: loading them into the
      form and saving again writes the same values. */
  lemma SaveLoadStable(f: Form)
    ensures Save(Load(AsStored(Save(f)))) == Save(f)
  {
    var s := Save(f);
    var g := Load(AsStored(s));
    SaveBaseStable(f.apiBase);
    SavePathStable(f.analyzePath);
    assert g.targetTone == s.targetTone;
  }

  lemma SaveBaseStable(base: string)
    ensures var b := Save(Form(base, "", "")).apiBaseUrl;
      b != [] && Save(Form(b, "", "")).apiBaseUrl == b
  {
    var t := Trim(JsSpace, base);
    TrimProps(JsSpace, base);
    DefaultsNormal();
    var b := if t != [] then t else DefaultBaseUrl;
    TrimOfTrimmed(JsSpace, b);
  }

  lemma SavePathStable(path: string)
    ensures var p := Save(Form("", path, "")).analyzePath;
      p != [] && Save(Form("", p, "")).analyzePath == p
  {
    DefaultsNormal();
    NormalizedStartsWithSlash(Some(path), DefaultPath);
    NormalizeIdempotent(Some(path), DefaultPath);
  }

  /** The content script reads back exactly what the popup saved. */
  lemma ContentReadsSaved(f: Form)
    ensures GetSettings(AsStored(Save(f))) == Save(f)
  {
    DefaultsNormal();
    SaveSanitises(f);
  }
}
