/** The document editor's client-side typo annotator: the draft is split into
    alternating word and whitespace tokens, each token's letter core is looked
    up in a fixed table of misspellings, flagged tokens are counted and
    explained, and a fix rewrites one token in place. */
module TextEditor {
  import opened Wrappers
  import opened Strings

  datatype Suggestion = Suggestion(correction: string, reason: string)

  /** The fixed table of 20 misspellings: the suggestion stored under a
      lowercased key, looked up among the table's own keys only. */
  function Lookup(key: string): Option<Suggestion> {
    match key
    case "todays" => Some(Suggestion("today's", "Missing apostrophe — should be \"today's\"."))
    case "peoples" => Some(Suggestion("people", "\"People\" is already plural; \"peoples\" is not standard."))
    case "depend" => Some(Suggestion("dependent", "The adjective form needed here is \"dependent\"."))
    case "technologyy" => Some(Suggestion("technology", "Extra \"y\" — spelling error."))
    case "technologye" => Some(Suggestion("technology", "Extra \"e\" — spelling error."))
    case "then" => Some(Suggestion("than", "\"Than\" is used for comparisons; \"then\" refers to time."))
    case "create" => Some(Suggestion("creates", "Singular subject \"This\" requires \"creates\"."))
    case "oppurtunities" => Some(Suggestion("opportunities", "Misspelling — correct is \"opportunities\"."))
    case "spends" => Some(Suggestion("spend", "Plural subject \"students\" takes \"spend\"."))
    case "medias" => Some(Suggestion("media", "\"Media\" is already plural."))
    case "effect" => Some(Suggestion("affect", "\"Affect\" is the verb; \"effect\" is usually a noun."))
    case "challengees" => Some(Suggestion("challenges", "Extra \"e\" — correct is \"challenges\"."))
    case "challanges" => Some(Suggestion("challenges", "Misspelling — correct is \"challenges\"."))
    case "severel" => Some(Suggestion("several", "Misspelling — correct is \"several\"."))
    case "concentrashun" => Some(Suggestion("concentration", "Phonetic misspelling — correct is \"concentration\"."))
    case "goverments" => Some(Suggestion("governments", "Missing \"n\" — correct is \"governments\"."))
    case "dont" => Some(Suggestion("don't", "Contraction needs an apostrophe: \"don't\"."))
    case "noww" => Some(Suggestion("now", "Extra \"w\" — spelling error."))
    case "consequencee" => Some(Suggestion("consequence", "Extra \"e\" — correct is \"consequence\"."))
    case "concequence" => Some(Suggestion("consequence", "Misspelling — correct is \"consequence\"."))
    case _ => None
  }

  const TypoKeys: set<string> := {
    "todays",
    "peoples",
    "depend",
    "technologyy",
    "technologye",
    "then",
    "create",
    "oppurtunities",
    "spends",
    "medias",
    "effect",
    "challengees",
    "challanges",
    "severel",
    "concentrashun",
    "goverments",
    "dont",
    "noww",
    "consequencee",
    "concequence"
  }

  /** The table's keys are exactly the 20 listed words. */
  lemma LookupDomain(key: string)
    ensures Lookup(key).Some? <==> key in TypoKeys
  {
  }

  // ---------------------------------------------------------------------------
  // Tokens

  /** `value.split(/(\s+)/)`. */
  function Tokenize(value: string): seq<string> {
    Tokens(JsSpace, value)
  }

  /** Re-joining the tokens gives back the buffer, for every buffer (the empty
      and the whitespace-only one included), and word tokens sit at the even
      positions. */
  lemma TokenizeRoundTrip(value: string)
    ensures Concat(Tokenize(value)) == value
    ensures |Tokenize(value)| % 2 == 1
    ensures forall i :: 0 <= i < |Tokenize(value)| && i % 2 == 0 ==> NoneIn(JsSpace, Tokenize(value)[i])
    ensures forall i :: 0 <= i < |Tokenize(value)| && i % 2 == 1 ==> Tokenize(value)[i] != [] && AllIn(JsSpace, Tokenize(value)[i])
  {
    var ts := Tokenize(value);
    TokensJoin(JsSpace, value);
    AlternatingAt(JsSpace, ts, 0);
    forall i | 0 <= i < |ts| && i % 2 == 0 ensures NoneIn(JsSpace, ts[i]) {
      AlternatingAt(JsSpace, ts, i);
    }
    forall i | 0 <= i < |ts| && i % 2 == 1 ensures ts[i] != [] && AllIn(JsSpace, ts[i]) {
      AlternatingAt(JsSpace, ts, i);
    }
  }

  // ---------------------------------------------------------------------------
  // The word pattern /^([^A-Za-z']*)([A-Za-z']+)([^A-Za-z']*)$/

  datatype WordMatch = WordMatch(lead: string, core: string, trail: string)

  /** The three groups of the pattern: letter-free lead, a non-empty run of
      letters and apostrophes, letter-free trail. */
  predicate Shaped(m: WordMatch) {
    NoneIn(Letter, m.lead) && m.core != [] && AllIn(Letter, m.core) && NoneIn(Letter, m.trail)
  }

  function Joined(m: WordMatch): string {
    m.lead + m.core + m.trail
  }

  /** `token.match(wordPattern)`. */
  function MatchWord(t: string): (r: Option<WordMatch>)
    ensures r.Some? ==> Shaped(r.value) && Joined(r.value) == t
  {
    var i := FirstIn(Letter, t, 0);
    var j := RunEnd(Letter, t, i);
    if i < |t| && NoneIn(Letter, t[j..]) then
      var m := WordMatch(t[..i], t[i..j], t[j..]);
      assert Joined(m) == t;
      Some(m)
    else None
  }

  /** The pattern matches exactly the tokens that split into the three groups,
      and the split is then unique: MatchWord(t) == Some(m) iff m is such a
      split of t. */
  lemma MatchWordExact(t: string, m: WordMatch)
    ensures MatchWord(t) == Some(m) <==> Shaped(m) && Joined(m) == t
  {
    if Shaped(m) && Joined(m) == t {
      var i := FirstIn(Letter, t, 0);
      forall x | 0 <= x < |m.lead| ensures !InClass(Letter, t[x]) {
        assert t[x] == m.lead[x];
      }
      assert t[|m.lead|] == m.core[0];
      assert i == |m.lead|;
      var j := RunEnd(Letter, t, i);
      forall x | |m.lead| <= x < |m.lead| + |m.core| ensures InClass(Letter, t[x]) {
        assert t[x] == m.core[x - |m.lead|];
      }
      if |m.lead| + |m.core| < |t| {
        assert t[|m.lead| + |m.core|] == m.trail[0];
      }
      assert j == |m.lead| + |m.core|;
      assert t[j..] == m.trail;
      assert t[..i] == m.lead;
      assert t[i..j] == m.core;
    }
  }

  /** A token with no letter, or with two letter runs separated by anything
      else ("hello-world"), does not match. */
  lemma NoMatchWithoutSingleRun(t: string)
    requires NoneIn(Letter, t) || exists a, b, c :: 0 <= a < b < c < |t| && InClass(Letter, t[a]) && !InClass(Letter, t[b]) && InClass(Letter, t[c])
    ensures MatchWord(t).None?
  {
    var i := FirstIn(Letter, t, 0);
    var j := RunEnd(Letter, t, i);
    var rest := t[j..];
    assert MatchWord(t).None? <==> i == |t| || !NoneIn(Letter, rest);
    if NoneIn(Letter, t) {
      assert i == |t|;
    } else {
      var a, b, c :| 0 <= a < b < c < |t| && InClass(Letter, t[a]) && !InClass(Letter, t[b]) && InClass(Letter, t[c]);
      TwoRunsLeaveLetters(t, a, b, c);
    }
  }

  /** With two letter runs, a letter follows the first run. */
  lemma TwoRunsLeaveLetters(t: string, a: nat, b: nat, c: nat)
    requires a < b < c < |t| && InClass(Letter, t[a]) && !InClass(Letter, t[b]) && InClass(Letter, t[c])
    ensures var j := RunEnd(Letter, t, FirstIn(Letter, t, 0)); !NoneIn(Letter, t[j..])
  {
    var i := FirstIn(Letter, t, 0);
    var j := RunEnd(Letter, t, i);
    assert i <= a;
    assert j <= b;
    assert t[j..][c - j] == t[c];
  }

  // ---------------------------------------------------------------------------
  // Lookup

  /** `getSuggestion(token)`: the table entry for the lowercased core, looked
      up among the table's own keys only. */
  function GetSuggestion(token: string): Option<Suggestion> {
    match MatchWord(token)
    case None => None
    case Some(m) => Lookup(Lower(m.core))
  }

  predicate Flagged(token: string) {
    GetSuggestion(token).Some?
  }

  /** A token is flagged iff it splits into lead, core and trail and the
      lowercased core is one of the 20 keys; the suggestion is that key's
      entry. */
  lemma FlaggedExact(token: string, m: WordMatch)
    requires Shaped(m) && Joined(m) == token
    ensures Flagged(token) <==> Lower(m.core) in TypoKeys
    ensures GetSuggestion(token) == Lookup(Lower(m.core))
  {
    MatchWordExact(token, m);
    LookupDomain(Lower(m.core));
  }

  /** Whitespace, pure punctuation and hyphenated words are never flagged. */
  lemma NeverFlagged(t: string)
    requires NoneIn(Letter, t) || exists a, b, c :: 0 <= a < b < c < |t| && InClass(Letter, t[a]) && !InClass(Letter, t[b]) && InClass(Letter, t[c])
    ensures !Flagged(t)
  {
    NoMatchWithoutSingleRun(t);
  }

  /** The lookup is exact on the lowercased core: "Dont," is flagged with
      "don't". */
  lemma DontFlagged(t: string)
    requires t == "Dont,"
    ensures Flagged(t) && GetSuggestion(t).value.correction == "don't"
  {
    DontMatch(t);
    DontLower();
    DontEntry("dont");
    assert GetSuggestion(t) == Lookup("dont");
  }

  lemma DontLower()
    ensures Lower(['D', 'o', 'n', 't']) == "dont"
  {
    LowerCapitalized(['D', 'o', 'n', 't']);
  }

  lemma DontMatch(t: string)
    requires t == "Dont,"
    ensures MatchWord(t) == Some(WordMatch([], ['D', 'o', 'n', 't'], [',']))
  {
    var m := WordMatch([], ['D', 'o', 'n', 't'], [',']);
    assert Joined(m) == t;
    MatchWordExact(t, m);
  }

  lemma DontEntry(k: string)
    requires k == "dont"
    ensures Lookup(k).Some? && Lookup(k).value.correction == "don't"
  {
  }

  /** A word one letter away from a key is not flagged: "govermentss". */
  lemma NearMissNotFlagged(t: string)
    requires t == "govermentss"
    ensures !Flagged(t)
  {
    assert LowerWord(t);
    PlainWordLookup(t);
    NotAKey(t);
  }

  lemma NotAKey(k: string)
    requires k == "govermentss"
    ensures Lookup(k).None?
  {
  }

  /** "hello-world" has two letter runs and is not flagged. */
  lemma HyphenatedNotFlagged(t: string)
    requires t == "hello-world"
    ensures !Flagged(t)
  {
    assert InClass(Letter, t[4]) && !InClass(Letter, t[5]) && InClass(Letter, t[6]);
    NeverFlagged(t);
  }

  /** A bare lowercase word matches as its own core. */
  lemma PlainWordMatch(t: string)
    requires LowerWord(t)
    ensures MatchWord(t) == Some(WordMatch("", t, "")) && Lower(t) == t
  {
    LowerWordProps(t);
    MatchWordExact(t, WordMatch("", t, ""));
  }

  /** A bare lowercase word is looked up as it stands. */
  lemma {:induction false} PlainWordLookup(t: string)
    requires LowerWord(t)
    ensures GetSuggestion(t) == Lookup(t)
  {
    PlainWordMatch(t);
    var k := Lower(WordMatch("", t, "").core);
    assert k == t;
    assert GetSuggestion(t) == Lookup(k);
  }

  /** Letters and whitespace are disjoint classes. */
  lemma LetterNotSpace(c: char)
    requires InClass(Letter, c)
    ensures !InClass(JsSpace, c)
  {
  }

  /** Only word tokens, at even positions of the split, can be flagged. */
  lemma FlaggedAreWordTokens(value: string, i: nat)
    requires i < |Tokenize(value)| && Flagged(Tokenize(value)[i])
    ensures i % 2 == 0 && NoneIn(JsSpace, Tokenize(value)[i])
  {
    MatchedAreWordTokens(value, i);
  }

  // ---------------------------------------------------------------------------
  // The lookup as the source writes it

  /** What `typoMap[key] || null` finds on a plain object: an own entry, or a
      member inherited from Object.prototype whose name is a possible key. */
  datatype ObjectLookup = OwnEntry(entry: Suggestion) | Inherited(name: string)

  /** The lowercase letter-only names Object.prototype supplies. */
  const InheritedKeys: set<string> := {"constructor"}

  function GetSuggestionAsWritten(token: string): Option<ObjectLookup> {
    match MatchWord(token)
    case None => None
    case Some(m) =>
      var key := Lower(m.core);
      match Lookup(key)
      case Some(s) => Some(OwnEntry(s))
      case None => if key in InheritedKeys then Some(Inherited(key)) else None
  }

  /** As written, the word "constructor" is flagged although the table has
      no entry for it; the corrected lookup does not flag it. */
  lemma ConstructorFlaggedAsWritten(t: string)
    requires t == "constructor"
    ensures GetSuggestionAsWritten(t) == Some(Inherited("constructor"))
    ensures !Flagged(t)
  {
    assert LowerWord(t);
    PlainWordMatch(t);
    ConstructorNotKey(t);
    PlainWordLookup(t);
  }

  lemma ConstructorNotKey(k: string)
    requires k == "constructor"
    ensures Lookup(k).None? && k in InheritedKeys
  {
  }

  /** Apart from that one key, the two lookups agree. */
  lemma AsWrittenAgrees(token: string)
    requires MatchWord(token).None? || Lower(MatchWord(token).value.core) !in InheritedKeys
    ensures GetSuggestionAsWritten(token).Some? <==> Flagged(token)
    ensures Flagged(token) ==> GetSuggestionAsWritten(token) == Some(OwnEntry(GetSuggestion(token).value))
  {
  }

  // ---------------------------------------------------------------------------
  // Counting

  /** `tokens.reduce((n, t) => getSuggestion(t) ? n + 1 : n, 0)`. */
  function ErrorCount(tokens: seq<string>): (n: nat)
    ensures n <= |tokens|
  {
    if tokens == [] then 0
    else ErrorCount(tokens[..|tokens| - 1]) + (if Flagged(tokens[|tokens| - 1]) then 1 else 0)
  }

  /** The count is zero iff no token is flagged. */
  lemma {:induction false} ErrorCountZero(tokens: seq<string>)
    ensures ErrorCount(tokens) == 0 <==> forall i :: 0 <= i < |tokens| ==> !Flagged(tokens[i])
  {
    if tokens != [] {
      var init := tokens[..|tokens| - 1];
      ErrorCountZero(init);
      if ErrorCount(tokens) == 0 {
        forall i | 0 <= i < |tokens| ensures !Flagged(tokens[i]) {
          if i < |tokens| - 1 { assert tokens[i] == init[i]; }
        }
      } else if ErrorCount(init) > 0 {
        var i :| 0 <= i < |init| && Flagged(init[i]);
        assert tokens[i] == init[i];
      }
    }
  }

  /** Replacing one token changes the count by that token's flag only. */
  lemma ErrorCountUpdate(tokens: seq<string>, i: nat, t: string)
    requires i < |tokens|
    ensures ErrorCount(tokens[i := t]) + (if Flagged(tokens[i]) then 1 else 0)
         == ErrorCount(tokens) + (if Flagged(t) then 1 else 0)
  {
    CountSuggestedUpdate(GetSuggestion, tokens, i, t);
    CountSuggestedIsErrorCount(tokens);
    CountSuggestedIsErrorCount(tokens[i := t]);
  }

  /** Repeats are counted: the same misspelling twice counts twice. */
  lemma CountsRepeats(w: string, sp: string)
    requires Flagged(w) && !Flagged(sp)
    ensures ErrorCount([w, sp, w]) == 2
  {
    CountPair(w, sp);
    assert [w, sp, w][..2] == [w, sp];
  }

  lemma CountPair(w: string, sp: string)
    requires Flagged(w) && !Flagged(sp)
    ensures ErrorCount([w, sp]) == 1
  {
    assert [w, sp][..1] == [w];
    assert [w][..0] == [];
  }

  // ---------------------------------------------------------------------------
  // Applying a fix

  /** The source's capital test, `c === c.toUpperCase() && c !== c.toLowerCase()`,
      on the letters and apostrophes a word core is made of. */
  predicate IsCapital(c: char) {
    'A' <= c <= 'Z'
  }

  /** The correction as inserted for a core: verbatim, or with its first
      character raised when the core starts with a capital. */
  function Recased(core: string, correction: string): string
    requires core != [] && (IsCapital(core[0]) ==> correction != [])
  {
    if IsCapital(core[0]) then [UpperChar(correction[0])] + correction[1..] else correction
  }

  /** The replacement for one token: lead + recased correction + trail. None
      when the token does not match, and when the correction is empty but would
      need raising (the source fails on `correction[0]` there before anything
      changes). */
  function FixToken(token: string, correction: string): Option<string> {
    match MatchWord(token)
    case None => None
    case Some(m) =>
      if IsCapital(m.core[0]) && correction == [] then None
      else Some(m.lead + Recased(m.core, correction) + m.trail)
  }

  /** The case rule: the fixed token keeps the original lead and trail, and the
      word is the correction verbatim or with its first character raised. */
  lemma FixTokenCase(token: string, correction: string, m: WordMatch)
    requires Shaped(m) && Joined(m) == token && correction != []
    ensures IsCapital(m.core[0]) ==>
      FixToken(token, correction) == Some(m.lead + [UpperChar(correction[0])] + correction[1..] + m.trail)
    ensures !IsCapital(m.core[0]) ==> FixToken(token, correction) == Some(m.lead + correction + m.trail)
  {
    MatchWordExact(token, m);
    assert MatchWord(token) == Some(m);
    assert FixToken(token, correction) == Some(m.lead + Recased(m.core, correction) + m.trail);
    if IsCapital(m.core[0]) {
      var w := [UpperChar(correction[0])] + correction[1..];
      assert Recased(m.core, correction) == w;
      assert m.lead + w + m.trail == m.lead + [UpperChar(correction[0])] + correction[1..] + m.trail;
    }
  }

  /** "dont," becomes "don't,". */
  lemma FixKeepsPunctuation(t: string, c: string)
    requires t == "dont," && c == "don't"
    ensures FixToken(t, c) == Some("don't,")
  {
    var m := WordMatch(t[..0], t[..4], t[4..]);
    assert Joined(m) == t;
    FixTokenCase(t, c, m);
    assert !IsCapital(m.core[0]);
    assert m.lead + c + m.trail == "don't,";
  }

  /** "Todays" becomes "Today's". */
  lemma FixKeepsCapital(t: string, c: string)
    requires t == "Todays" && c == "today's"
    ensures FixToken(t, c) == Some("Today's")
  {
    var m := WordMatch(t[..0], t, t[6..]);
    assert Joined(m) == t;
    FixTokenCase(t, c, m);
    assert IsCapital(m.core[0]);
    assert UpperChar(c[0]) == 'T';
    assert m.lead + [UpperChar(c[0])] + c[1..] + m.trail == "Today's";
  }

  /** A token the pattern rejects is never rewritten. */
  lemma FixNeedsMatch(token: string, correction: string)
    requires MatchWord(token).None?
    ensures FixToken(token, correction).None?
  {
  }

  /** A non-empty word of lowercase letters and apostrophes. */
  predicate LowerWord(s: string) {
    s != [] && forall i :: 0 <= i < |s| ==> ('a' <= s[i] <= 'z' || s[i] == '\'')
  }

  /** Lowercasing leaves such a word alone. */
  lemma LowerWordProps(s: string)
    requires LowerWord(s)
    ensures AllIn(Letter, s) && Lower(s) == s
  {
  }

  /** Lowercasing a word whose tail is lowercase changes only its first
      character. */
  lemma LowerCapitalized(w: string)
    requires w != [] && LowerWord(w[1..])
    ensures Lower(w) == [LowerChar(w[0])] + w[1..]
  {
    assert w == [w[0]] + w[1..];
    assert Lower([w[0]] + w[1..]) == [LowerChar(w[0])] + Lower(w[1..]);
    LowerWordProps(w[1..]);
  }

  /** A recased lowercase correction is still one letter run, and lowercases
      back to the correction. */
  lemma RecasedLower(core: string, c: string)
    requires core != [] && LowerWord(c)
    ensures AllIn(Letter, Recased(core, c)) && Lower(Recased(core, c)) == c
  {
    var w := Recased(core, c);
    forall x | 0 <= x < |w| ensures InClass(Letter, w[x]) && Lower(w)[x] == c[x] {
      if x > 0 || !IsCapital(core[0]) { assert w[x] == c[x]; }
    }
  }

  /** A recased correction has whitespace iff the correction has. */
  lemma RecasedNoSpace(core: string, c: string)
    requires core != [] && c != [] && NoneIn(JsSpace, c)
    ensures Recased(core, c) != [] && NoneIn(JsSpace, Recased(core, c))
  {
    var w := Recased(core, c);
    forall x | 0 <= x < |w| ensures !InClass(JsSpace, w[x]) {
      if x > 0 || !IsCapital(core[0]) { assert w[x] == c[x]; }
    }
  }

  /** The corrections the table offers. */
  const Corrections: set<string> := {"today's", "people", "dependent", "technology", "than", "creates",
    "opportunities", "spend", "media", "affect", "challenges", "several", "concentration", "governments",
    "don't", "now", "consequence"}

  lemma CorrectionListed(key: string)
    requires Lookup(key).Some?
    ensures Lookup(key).value.correction in Corrections
  {
  }

  lemma CorrectionShape(c: string)
    requires c in Corrections
    ensures LowerWord(c) && Lookup(c).None?
  {
    CorrectionLower(c);
    CorrectionNotKey(c);
  }

  lemma CorrectionLower(c: string)
    requires c in Corrections
    ensures LowerWord(c)
  {
  }

  lemma CorrectionNotKey(c: string)
    requires c in Corrections
    ensures Lookup(c).None?
  {
  }

  /** Every correction in the table is a lowercase word that is not itself a key. */
  lemma TableCorrections(key: string)
    requires Lookup(key).Some?
    ensures LowerWord(Lookup(key).value.correction)
    ensures Lookup(Lookup(key).value.correction).None?
  {
    CorrectionListed(key);
    CorrectionShape(Lookup(key).value.correction);
  }

  /** The suggestion of a flagged token, through the match of its core. */
  lemma SuggestionOf(token: string)
    requires MatchWord(token).Some?
    ensures GetSuggestion(token) == Lookup(Lower(MatchWord(token).value.core))
  {
  }

  /** Fixing a flagged token with its own suggestion leaves a token that is no
      longer flagged. */
  lemma FixClearsFlag(token: string)
    requires Flagged(token)
    ensures FixToken(token, GetSuggestion(token).value.correction).Some?
    ensures !Flagged(FixToken(token, GetSuggestion(token).value.correction).value)
  {
    var m := MatchWord(token).value;
    SuggestionOf(token);
    var c := GetSuggestion(token).value.correction;
    TableCorrections(Lower(m.core));
    var w := Recased(m.core, c);
    RecasedLower(m.core, c);
    var m2 := WordMatch(m.lead, w, m.trail);
    assert FixToken(token, c) == Some(Joined(m2));
    FlaggedExact(Joined(m2), m2);
  }

  /** `applyFix(tokenIndex, correction)` on the buffer: the rejoined tokens with
      the one at tokenIndex replaced; None when nothing changes. */
  function FixedBuffer(value: string, tokenIndex: nat, correction: string): Option<string> {
    var ts := Tokenize(value);
    if tokenIndex >= |ts| then None
    else match FixToken(ts[tokenIndex], correction)
      case None => None
      case Some(nt) => Some(Concat(ts[tokenIndex := nt]))
  }

  /** Only the target token changes: the text before and after it is kept. */
  lemma FixOnlyTarget(value: string, tokenIndex: nat, correction: string)
    requires FixedBuffer(value, tokenIndex, correction).Some?
    ensures var ts := Tokenize(value);
      && tokenIndex < |ts|
      && FixToken(ts[tokenIndex], correction).Some?
      && value == Concat(ts[..tokenIndex]) + ts[tokenIndex] + Concat(ts[tokenIndex + 1..])
      && FixedBuffer(value, tokenIndex, correction).value
         == Concat(ts[..tokenIndex]) + FixToken(ts[tokenIndex], correction).value + Concat(ts[tokenIndex + 1..])
  {
    var ts := Tokenize(value);
    var nt := FixToken(ts[tokenIndex], correction).value;
    TokensJoin(JsSpace, value);
    SpliceConcat(ts, tokenIndex, ts[tokenIndex]);
    assert ts[tokenIndex := ts[tokenIndex]] == ts;
    SpliceConcat(ts, tokenIndex, nt);
  }

  lemma SpliceConcat(ts: seq<string>, i: nat, t: string)
    requires i < |ts|
    ensures Concat(ts[i := t]) == Concat(ts[..i]) + t + Concat(ts[i + 1..])
  {
    var u := ts[i := t];
    assert u == ts[..i] + [t] + ts[i + 1..];
    ConcatAppend(ts[..i] + [t], ts[i + 1..]);
    ConcatAppend(ts[..i], [t]);
    assert Concat([t]) == t + Concat([]);
  }

  /** A matched token of the split is a word token: even position, no whitespace. */
  lemma MatchedAreWordTokens(value: string, i: nat)
    requires i < |Tokenize(value)| && MatchWord(Tokenize(value)[i]).Some?
    ensures i % 2 == 0 && NoneIn(JsSpace, Tokenize(value)[i])
  {
    var ts := Tokenize(value);
    TokensJoin(JsSpace, value);
    AlternatingAt(JsSpace, ts, i);
    var t := ts[i];
    var m := MatchWord(t).value;
    assert t[|m.lead|] == m.core[0];
    LetterNotSpace(t[|m.lead|]);
  }

  /** A whitespace-free token stays whitespace-free when fixed with a
      whitespace-free, non-empty correction, and is not empty. */
  lemma FixedTokenNoSpace(t: string, c: string)
    requires MatchWord(t).Some? && NoneIn(JsSpace, t) && c != [] && NoneIn(JsSpace, c)
    ensures FixToken(t, c).Some? && FixToken(t, c).value != [] && NoneIn(JsSpace, FixToken(t, c).value)
  {
    var m := MatchWord(t).value;
    var w := Recased(m.core, c);
    RecasedNoSpace(m.core, c);
    var nt := m.lead + w + m.trail;
    assert FixToken(t, c) == Some(nt);
    forall x | 0 <= x < |nt| ensures !InClass(JsSpace, nt[x]) {
      if x < |m.lead| {
        assert nt[x] == t[x];
      } else if x < |m.lead| + |w| {
        assert nt[x] == w[x - |m.lead|];
      } else {
        assert nt[x] == t[x - |w| + |m.core|];
      }
    }
  }

  /** When the correction is a non-empty word without whitespace, splitting the
      fixed buffer gives back the old tokens with only the target replaced. */
  lemma FixRetokenizes(value: string, tokenIndex: nat, correction: string)
    requires FixedBuffer(value, tokenIndex, correction).Some?
    requires correction != [] && NoneIn(JsSpace, correction)
    ensures var ts := Tokenize(value);
      Tokenize(FixedBuffer(value, tokenIndex, correction).value)
        == ts[tokenIndex := FixToken(ts[tokenIndex], correction).value]
  {
    var ts := Tokenize(value);
    var t := ts[tokenIndex];
    MatchedAreWordTokens(value, tokenIndex);
    FixedTokenNoSpace(t, correction);
    var nt := FixToken(t, correction).value;
    var u := ts[tokenIndex := nt];
    TokensJoin(JsSpace, value);
    AlternatingReplaceWord(ts, tokenIndex, nt);
    assert FixedBuffer(value, tokenIndex, correction).value == Concat(u);
    TokensUnique(JsSpace, Concat(u), u);
  }

  /** Replacing an even (word) token by a non-empty whitespace-free token keeps
      the alternation. */
  lemma {:induction false} AlternatingReplaceWord(ts: seq<string>, i: nat, nt: string)
    requires Alternating(JsSpace, ts) && i < |ts| && i % 2 == 0
    requires nt != [] && NoneIn(JsSpace, nt)
    ensures Alternating(JsSpace, ts[i := nt])
    decreases |ts|
  {
    var u := ts[i := nt];
    if |ts| > 1 {
      if i >= 2 {
        AlternatingReplaceWord(ts[2..], i - 2, nt);
        assert u[2..] == ts[2..][i - 2 := nt];
      } else {
        assert u[2..] == ts[2..];
      }
    }
  }

  /** Fixing a flagged token with its own suggestion lowers the buffer's error
      count by exactly one. */
  lemma FixLowersCount(value: string, tokenIndex: nat)
    requires tokenIndex < |Tokenize(value)| && Flagged(Tokenize(value)[tokenIndex])
    ensures var c := GetSuggestion(Tokenize(value)[tokenIndex]).value.correction;
      && FixedBuffer(value, tokenIndex, c).Some?
      && ErrorCount(Tokenize(FixedBuffer(value, tokenIndex, c).value)) + 1 == ErrorCount(Tokenize(value))
  {
    var ts := Tokenize(value);
    var t := ts[tokenIndex];
    SuggestionOf(t);
    var c := GetSuggestion(t).value.correction;
    TableCorrections(Lower(MatchWord(t).value.core));
    LowerWordProps(c);
    LetterWordNoSpace(c);
    FixClearsFlag(t);
    var nt := FixToken(t, c).value;
    FixRetokenizes(value, tokenIndex, c);
    ErrorCountUpdate(ts, tokenIndex, nt);
  }

  lemma LetterWordNoSpace(s: string)
    requires AllIn(Letter, s)
    ensures NoneIn(JsSpace, s)
  {
    forall x | 0 <= x < |s| ensures !InClass(JsSpace, s[x]) { LetterNotSpace(s[x]); }
  }

  // ---------------------------------------------------------------------------
  // Explanation rows

  datatype Row = Row(tokenIndex: nat, word: string, correction: string, reason: string)

  /** The de-duplication key: the trimmed token, lowercased (punctuation kept). */
  function Key(token: string): string {
    Lower(Trim(JsSpace, token))
  }

  function RowKeys(rows: seq<Row>): set<string> {
    set r | r in rows :: Lower(r.word)
  }

  /** The row a flagged token produces. */
  predicate RowFor(tokens: seq<string>, r: Row) {
    && r.tokenIndex < |tokens|
    && Flagged(tokens[r.tokenIndex])
    && r.word == Trim(JsSpace, tokens[r.tokenIndex])
    && GetSuggestion(tokens[r.tokenIndex]) == Some(Suggestion(r.correction, r.reason))
  }

  /** How many tokens `suggest` has an entry for (ErrorCount for an arbitrary lookup). */
  function CountSuggested(suggest: string -> Option<Suggestion>, tokens: seq<string>): (n: nat)
    ensures n <= |tokens|
  {
    if tokens == [] then 0
    else
      var last := if suggest(tokens[|tokens| - 1]).Some? then 1 else 0;
      CountSuggested(suggest, tokens[..|tokens| - 1]) + last
  }

  lemma CountSuggestedStep(suggest: string -> Option<Suggestion>, tokens: seq<string>, i: nat)
    requires i < |tokens|
    ensures CountSuggested(suggest, tokens[..i + 1])
      == CountSuggested(suggest, tokens[..i]) + (if suggest(tokens[i]).Some? then 1 else 0)
  {
    assert tokens[..i + 1][..i] == tokens[..i];
  }

  /** Replacing one token changes the count under any lookup by that
      token's entry only. */
  lemma {:induction false} CountSuggestedUpdate(suggest: string -> Option<Suggestion>, tokens: seq<string>, i: nat, t: string)
    requires i < |tokens|
    ensures CountSuggested(suggest, tokens[i := t]) + (if suggest(tokens[i]).Some? then 1 else 0)
         == CountSuggested(suggest, tokens) + (if suggest(t).Some? then 1 else 0)
    decreases |tokens|
  {
    var u := tokens[i := t];
    var n := |tokens| - 1;
    if i < n {
      assert u[..n] == tokens[..n][i := t];
      assert u[n] == tokens[n];
      CountSuggestedUpdate(suggest, tokens[..n], i, t);
    } else {
      assert u[..n] == tokens[..n];
    }
  }

  /** With the editor's own lookup, the count is the error count. */
  lemma {:induction false} CountSuggestedIsErrorCount(tokens: seq<string>)
    ensures CountSuggested(GetSuggestion, tokens) == ErrorCount(tokens)
    decreases |tokens|
  {
    if tokens != [] {
      CountSuggestedIsErrorCount(tokens[..|tokens| - 1]);
    }
  }

  /** The row a token produces under lookup `suggest` and trimming `clean`. */
  predicate RowUnder(suggest: string -> Option<Suggestion>, clean: string -> string, tokens: seq<string>, r: Row) {
    && r.tokenIndex < |tokens|
    && r.word == clean(tokens[r.tokenIndex])
    && suggest(tokens[r.tokenIndex]) == Some(Suggestion(r.correction, r.reason))
  }

  function KeysUnder(fold: string -> string, rows: seq<Row>): set<string> {
    set r | r in rows :: fold(r.word)
  }

  lemma KeysUnderSnoc(fold: string -> string, rows: seq<Row>, row: Row)
    ensures KeysUnder(fold, rows + [row]) == KeysUnder(fold, rows) + {fold(row.word)}
  {
    var both := rows + [row];
    forall k | k in KeysUnder(fold, both) ensures k in KeysUnder(fold, rows) + {fold(row.word)} {
      var r :| r in both && fold(r.word) == k;
      if r != row {
        assert r in rows;
      }
    }
    forall r | r in rows ensures fold(r.word) in KeysUnder(fold, both) {
      assert r in both;
    }
  }

  /** The reduce that builds the explanation list, over any lookup, trimming and
      case folding: it skips tokens without a suggestion and tokens whose folded
      word was already seen, and appends a row for every other token. */
  method FirstRows(tokens: seq<string>, suggest: string -> Option<Suggestion>,
                   clean: string -> string, fold: string -> string) returns (rows: seq<Row>)
    ensures |rows| <= CountSuggested(suggest, tokens)
    ensures forall r :: 0 <= r < |rows| ==> RowUnder(suggest, clean, tokens, rows[r])
    ensures forall a, b :: 0 <= a < b < |rows| ==>
      rows[a].tokenIndex < rows[b].tokenIndex && fold(rows[a].word) != fold(rows[b].word)
    ensures forall j :: 0 <= j < |tokens| && suggest(tokens[j]).Some? ==>
      fold(clean(tokens[j])) in KeysUnder(fold, rows)
    ensures forall r, j :: 0 <= r < |rows| && 0 <= j < rows[r].tokenIndex && j < |tokens| && suggest(tokens[j]).Some? ==>
      fold(clean(tokens[j])) != fold(rows[r].word)
  {
    rows := [];
    var seen: set<string> := {};
    var i := 0;
    while i < |tokens|
      invariant 0 <= i <= |tokens|
      invariant seen == KeysUnder(fold, rows)
      invariant |rows| <= CountSuggested(suggest, tokens[..i])
      invariant forall r :: 0 <= r < |rows| ==> RowUnder(suggest, clean, tokens, rows[r]) && rows[r].tokenIndex < i
      invariant forall a, b :: 0 <= a < b < |rows| ==>
        rows[a].tokenIndex < rows[b].tokenIndex && fold(rows[a].word) != fold(rows[b].word)
      invariant forall j :: 0 <= j < i && suggest(tokens[j]).Some? ==> fold(clean(tokens[j])) in seen
      invariant forall r, j :: 0 <= r < |rows| && 0 <= j < rows[r].tokenIndex && j < |tokens| && suggest(tokens[j]).Some? ==>
        fold(clean(tokens[j])) != fold(rows[r].word)
    {
      CountSuggestedStep(suggest, tokens, i);
      var sug := suggest(tokens[i]);
      if sug.Some? {
        var word := clean(tokens[i]);
        var key := fold(word);
        if key !in seen {
          var row := Row(i, word, sug.value.correction, sug.value.reason);
          var before := rows;
          rows := before + [row];
          assert forall r :: 0 <= r < |before| ==> rows[r] == before[r];
          assert rows[|before|] == row;
          KeysUnderSnoc(fold, before, row);
          seen := seen + {key};
        }
      }
      i := i + 1;
    }
    assert tokens[..i] == tokens;
  }

  function TrimJs(s: string): string {
    Trim(JsSpace, s)
  }

  /** The explanation list: one row per distinct lowercased word among the
      flagged tokens, in token order, taken from the word's first flagged
      occurrence. */
  method ExplanationRows(tokens: seq<string>) returns (rows: seq<Row>)
    ensures |rows| <= ErrorCount(tokens)
    ensures forall r :: 0 <= r < |rows| ==> RowFor(tokens, rows[r])
    ensures forall a, b :: 0 <= a < b < |rows| ==>
      rows[a].tokenIndex < rows[b].tokenIndex && Lower(rows[a].word) != Lower(rows[b].word)
    ensures forall j :: 0 <= j < |tokens| && Flagged(tokens[j]) ==> Key(tokens[j]) in RowKeys(rows)
    ensures forall r, j :: 0 <= r < |rows| && 0 <= j < rows[r].tokenIndex && j < |tokens| && Flagged(tokens[j]) ==>
      Key(tokens[j]) != Lower(rows[r].word)
  {
    rows := FirstRows(tokens, GetSuggestion, TrimJs, Lower);
    CountSuggestedIsErrorCount(tokens);
  }

  // ---------------------------------------------------------------------------
  // Tooltip placement

  /** A token's bounding box, as far as the placement reads it. */
  datatype Rect = Rect(left: int, bottom: int)

  /** The editor container: its box and its offsetWidth. */
  datatype WrapBox = WrapBox(left: int, top: int, offsetWidth: int)

  datatype Position = Position(top: int, left: int)

  const CardWidth: int := 264
  const DefaultWrapWidth: int := 600

  function WrapLeft(wrap: Option<WrapBox>): int {
    if wrap.Some? then wrap.value.left else 0
  }

  function WrapTop(wrap: Option<WrapBox>): int {
    if wrap.Some? then wrap.value.top else 0
  }

  /** `offsetWidth || 600`: a missing or zero width counts as 600. */
  function WrapWidth(wrap: Option<WrapBox>): int {
    if wrap.Some? && wrap.value.offsetWidth != 0 then wrap.value.offsetWidth else DefaultWrapWidth
  }

  function Max(a: int, b: int): int {
    if a >= b then a else b
  }

  /** The hover card's offset inside the container. */
  function TooltipPosition(token: Rect, wrap: Option<WrapBox>): (p: Position)
    ensures p.left >= 0
    ensures p.left <= Max(0, token.left - WrapLeft(wrap))
    ensures token.left - WrapLeft(wrap) + CardWidth > WrapWidth(wrap) ==>
      p.left == Max(0, WrapWidth(wrap) - CardWidth - 4)
    ensures token.left - WrapLeft(wrap) + CardWidth <= WrapWidth(wrap) ==>
      p.left == Max(0, token.left - WrapLeft(wrap))
    ensures WrapWidth(wrap) >= CardWidth + 4 ==> p.left + CardWidth <= WrapWidth(wrap)
    ensures p.top == token.bottom - WrapTop(wrap) + 6
  {
    var left := token.left - WrapLeft(wrap);
    var left' := if left + CardWidth > WrapWidth(wrap) then WrapWidth(wrap) - CardWidth - 4 else left;
    Position(token.bottom - WrapTop(wrap) + 6, Max(0, left'))
  }

  // ---------------------------------------------------------------------------
  // The editor's state

  datatype Tooltip = Tooltip(tokenIndex: nat, word: string, suggestion: Suggestion, top: int, left: int)

  /** The buffer (owned by the editor's parent and written back through
      onChange) and the open hover card. */
  class Editor {
    var value: string
    var tooltip: Option<Tooltip>

    constructor(initial: string)
      ensures value == initial && tooltip == None
    {
      value := initial;
      tooltip := None;
    }

    /** Typing in the text area. */
    method Edit(next: string)
      modifies this
      ensures value == next && tooltip == old(tooltip)
    {
      value := next;
    }

    /** `applyFix`: on a match the buffer becomes the rejoined tokens with the
        target replaced and the card closes; otherwise nothing changes. */
    method ApplyFix(tokenIndex: nat, correction: string) returns (changed: bool)
      modifies this
      ensures changed <==> FixedBuffer(old(value), tokenIndex, correction).Some?
      ensures changed ==> value == FixedBuffer(old(value), tokenIndex, correction).value && tooltip == None
      ensures !changed ==> value == old(value) && tooltip == old(tooltip)
    {
      var updated := Tokenize(value);
      if tokenIndex >= |updated| {
        return false;
      }
      var fixed := FixToken(updated[tokenIndex], correction);
      if fixed.None? {
        return false;
      }
      updated := updated[tokenIndex := fixed.value];
      value := Concat(updated);
      tooltip := None;
      changed := true;
    }

    /** The mouse entering a token: only flagged tokens react, opening the
        card at the clamped position. */
    method Hover(tokenIndex: nat, rect: Rect, wrap: Option<WrapBox>)
      modifies this
      ensures value == old(value)
      ensures var ts := Tokenize(value);
        if tokenIndex < |ts| && Flagged(ts[tokenIndex]) then
          var p := TooltipPosition(rect, wrap);
          tooltip == Some(Tooltip(tokenIndex, Trim(JsSpace, ts[tokenIndex]), GetSuggestion(ts[tokenIndex]).value, p.top, p.left))
        else tooltip == old(tooltip)
    {
      var ts := Tokenize(value);
      if tokenIndex < |ts| {
        var sug := GetSuggestion(ts[tokenIndex]);
        if sug.Some? {
          var p := TooltipPosition(rect, wrap);
          tooltip := Some(Tooltip(tokenIndex, Trim(JsSpace, ts[tokenIndex]), sug.value, p.top, p.left));
        }
      }
    }

    /** The mouse leaving a token, the card or the editor closes the card. */
    method Leave()
      modifies this
      ensures value == old(value) && tooltip == None
    {
      tooltip := None;
    }

    /** Clicking a flagged token applies its own suggestion and closes the
        card; clicking any other token does nothing. */
    method ClickToken(tokenIndex: nat)
      modifies this
      ensures var ts := Tokenize(old(value));
        if tokenIndex < |ts| && Flagged(ts[tokenIndex]) then
          && FixedBuffer(old(value), tokenIndex, GetSuggestion(ts[tokenIndex]).value.correction) == Some(value)
          && tooltip == None
        else value == old(value) && tooltip == old(tooltip)
    {
      var ts := Tokenize(value);
      if tokenIndex < |ts| {
        var sug := GetSuggestion(ts[tokenIndex]);
        if sug.Some? {
          FixClearsFlag(ts[tokenIndex]);
          var _ := ApplyFix(tokenIndex, sug.value.correction);
          tooltip := None;
        }
      }
    }

    /** The card's "Correct spelling" button. */
    method FixFromCard() returns (changed: bool)
      modifies this
      ensures old(tooltip).None? ==> !changed && value == old(value) && tooltip == old(tooltip)
      ensures old(tooltip).Some? ==>
        var t := old(tooltip).value;
        && (changed <==> FixedBuffer(old(value), t.tokenIndex, t.suggestion.correction).Some?)
        && (changed ==> value == FixedBuffer(old(value), t.tokenIndex, t.suggestion.correction).value && tooltip == None)
        && (!changed ==> value == old(value) && tooltip == old(tooltip))
    {
      if tooltip.None? {
        return false;
      }
      var t := tooltip.value;
      changed := ApplyFix(t.tokenIndex, t.suggestion.correction);
    }
  }
}
