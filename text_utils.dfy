/** The analysis engine's text helpers: whitespace normalisation, and the
    regular-expression fallback of sentence splitting (the tokenizer it
    prefers is a library and is taken as given elsewhere). Whitespace is
    Python's `\s`. */
module TextUtils {
  import opened Wrappers
  import opened Strings

  // ---------------------------------------------------------------------------
  // normalize_text

  /** `re.sub(r"\s+", " ", s)`: every maximal whitespace run becomes one
      space. */
  function Collapse(s: string): string {
    JoinWith(Pieces(PySpace, s), " ")
  }

  /** `normalize_text`. */
  function NormalizeText(s: string): string {
    Trim(PySpace, Collapse(s))
  }

  /** Words as the rest of the engine sees them: non-empty, whitespace-free. */
  predicate Plain(ws: seq<string>) {
    forall i :: 0 <= i < |ws| ==> ws[i] != [] && NoneIn(PySpace, ws[i])
  }

  /** Every whitespace character is a single space between two
      non-whitespace characters. */
  predicate SingleSpaced(r: string) {
    forall i :: 0 <= i < |r| && InClass(PySpace, r[i]) ==>
      r[i] == ' ' && 0 < i < |r| - 1 && !InClass(PySpace, r[i - 1]) && !InClass(PySpace, r[i + 1])
  }

  /** A single space before a non-empty text, when `s` starts with whitespace. */
  function Lead(s: string): string {
    if s != [] && InClass(PySpace, s[0]) then " " else ""
  }

  /** A single space after it, when `s` ends with whitespace. */
  function Trail(s: string): string {
    if s != [] && InClass(PySpace, s[|s| - 1]) then " " else ""
  }

  /** The first and last characters of joined plain words. */
  lemma {:induction false} JoinEnds(ws: seq<string>)
    requires Plain(ws) && ws != []
    ensures var j := JoinWith(ws, " ");
      j != [] && j[0] == ws[0][0] && j[|j| - 1] == ws[|ws| - 1][|ws[|ws| - 1]| - 1]
    decreases |ws|
  {
    if |ws| > 1 {
      JoinEnds(ws[1..]);
    }
  }

  lemma JoinTrimmed(ws: seq<string>)
    requires Plain(ws) && ws != []
    ensures IsTrimmed(PySpace, JoinWith(ws, " ")) && JoinWith(ws, " ") != []
  {
    JoinEnds(ws);
  }

  /** Trimming leading whitespace off whitespace before a text that does
      not start with whitespace. */
  lemma TrimStartPadded(a: string, y: string)
    requires AllIn(PySpace, a) && y != [] && !InClass(PySpace, y[0])
    ensures TrimStart(PySpace, a + y) == y
  {
    var s := a + y;
    var r := TrimStart(PySpace, s);
    TrimStartSpec(PySpace, s);
    var m := |s| - |r|;
    assert !InClass(PySpace, s[|a|]) by { assert s[|a|] == y[0]; }
    assert forall x :: 0 <= x < |a| ==> InClass(PySpace, s[x]) by {
      forall x | 0 <= x < |a| ensures InClass(PySpace, s[x]) { assert s[x] == a[x]; }
    }
    assert forall x :: 0 <= x < m ==> InClass(PySpace, s[x]) by {
      forall x | 0 <= x < m ensures InClass(PySpace, s[x]) { assert s[x] == s[..m][x]; }
    }
    assert m < |s| ==> !InClass(PySpace, s[m]) by {
      if m < |s| { assert r[0] == s[m]; }
    }
  }

  /** Trimming trailing whitespace off a text that does not end with
      whitespace, followed by whitespace. */
  lemma TrimEndPadded(y: string, b: string)
    requires AllIn(PySpace, b) && y != [] && !InClass(PySpace, y[|y| - 1])
    ensures TrimEnd(PySpace, y + b) == y
  {
    var s := y + b;
    var r := TrimEnd(PySpace, s);
    TrimEndSpec(PySpace, s);
    var n := |r|;
    assert !InClass(PySpace, s[|y| - 1]) by { assert s[|y| - 1] == y[|y| - 1]; }
    assert forall x :: |y| <= x < |s| ==> InClass(PySpace, s[x]) by {
      forall x | |y| <= x < |s| ensures InClass(PySpace, s[x]) { assert s[x] == b[x - |y|]; }
    }
    assert forall x :: n <= x < |s| ==> InClass(PySpace, s[x]) by {
      forall x | n <= x < |s| ensures InClass(PySpace, s[x]) { assert s[x] == s[n..][x - n]; }
    }
    assert n > 0 ==> !InClass(PySpace, s[n - 1]) by {
      if n > 0 { assert r[n - 1] == s[n - 1]; }
    }
  }

  /** Trimming whitespace padding off a trimmed, non-empty text. */
  lemma TrimPadded(a: string, x: string, b: string)
    requires AllIn(PySpace, a) && AllIn(PySpace, b)
    requires x != [] && IsTrimmed(PySpace, x)
    ensures Trim(PySpace, a + x + b) == x
  {
    assert a + x + b == a + (x + b);
    TrimStartPadded(a, x + b);
    TrimEndPadded(x, b);
  }

  /** The words of a non-empty text without whitespace: the text. */
  lemma WordsOfPlain(s: string)
    requires s != [] && NoneIn(PySpace, s)
    ensures Words(PySpace, s) == [s] && Collapse(s) == s
  {
    PiecesOfPlain(s);
    assert [s][1..] == [];
    assert NonEmpty([s]) == [s] + NonEmpty([]);
  }

  /** The split of a text with no whitespace is the text itself. */
  lemma PiecesOfPlain(s: string)
    requires NoneIn(PySpace, s)
    ensures Pieces(PySpace, s) == [s]
  {
    assert FirstIn(PySpace, s, 0) == |s|;
    assert Tokens(PySpace, s) == [s];
  }

  /** The whitespace-run collapse, one leading piece at a time. */
  lemma CollapseStep(s: string, i: nat, j: nat)
    requires i == FirstIn(PySpace, s, 0) < |s| && j == RunEnd(PySpace, s, i)
    ensures Collapse(s) == s[..i] + " " + Collapse(s[j..])
    ensures Words(PySpace, s) == (if i > 0 then [s[..i]] else []) + Words(PySpace, s[j..])
    ensures s[j..] != [] ==> !InClass(PySpace, s[j..][0]) && Words(PySpace, s[j..]) != []
    ensures s[j..] == [] ==> Words(PySpace, s[j..]) == [] && Collapse(s[j..]) == []
  {
    PiecesStep(PySpace, s, i, j);
    var t := s[j..];
    JoinCons(s[..i], Pieces(PySpace, t), " ");
    var ps := Pieces(PySpace, t);
    assert ([s[..i]] + ps)[1..] == ps;
    if t != [] {
      assert t[0] == s[j];
      assert !AllIn(PySpace, t);
      WordsNonEmpty(PySpace, t);
    } else {
      WordsOfEmpty();
      PiecesOfPlain(t);
    }
  }

  /** The empty text has no words. */
  lemma WordsOfEmpty()
    ensures Words(PySpace, []) == []
  {
    PiecesOfPlain([]);
  }

  /** The collapsed text is the joined words with at most one space of
      padding on each side, present exactly when the text starts or ends
      with whitespace. */
  lemma {:induction false} CollapseShape(s: string)
    requires Words(PySpace, s) != []
    ensures Collapse(s) == Lead(s) + JoinWith(Words(PySpace, s), " ") + Trail(s)
    decreases |s|
  {
    WordsOfEmpty();
    var i := FirstIn(PySpace, s, 0);
    if i == |s| {
      WordsOfPlain(s);
    } else {
      var j := RunEnd(PySpace, s, i);
      var t := s[j..];
      if t != [] {
        CollapseShape(t);
      }
      CollapseShapeStep(s, i, j);
    }
  }

  /** The step of CollapseShape: one leading piece and whitespace run. */
  lemma CollapseShapeStep(s: string, i: nat, j: nat)
    requires i == FirstIn(PySpace, s, 0) < |s| && j == RunEnd(PySpace, s, i)
    requires Words(PySpace, s) != []
    requires s[j..] != [] ==>
      Collapse(s[j..]) == Lead(s[j..]) + JoinWith(Words(PySpace, s[j..]), " ") + Trail(s[j..])
    ensures Collapse(s) == Lead(s) + JoinWith(Words(PySpace, s), " ") + Trail(s)
  {
    if i > 0 && s[j..] != [] {
      ShapeWordThenMore(s, i, j);
    } else if i > 0 {
      ShapeLastWord(s, i, j);
    } else {
      ShapeLeadingSpace(s, i, j);
    }
  }

  lemma ShapeWordThenMore(s: string, i: nat, j: nat)
    requires i == FirstIn(PySpace, s, 0) < |s| && j == RunEnd(PySpace, s, i)
    requires i > 0 && s[j..] != []
    requires Collapse(s[j..]) == Lead(s[j..]) + JoinWith(Words(PySpace, s[j..]), " ") + Trail(s[j..])
    ensures Collapse(s) == Lead(s) + JoinWith(Words(PySpace, s), " ") + Trail(s)
  {
    var t := s[j..];
    var a := s[..i];
    CollapseStep(s, i, j);
    assert Lead(t) == "";
    assert Trail(t) == Trail(s) by { assert t[|t| - 1] == s[|s| - 1]; }
    assert Lead(s) == "" by { assert s[0] == a[0]; }
    JoinCons(a, Words(PySpace, t), " ");
  }

  lemma ShapeLastWord(s: string, i: nat, j: nat)
    requires i == FirstIn(PySpace, s, 0) < |s| && j == RunEnd(PySpace, s, i)
    requires i > 0 && s[j..] == []
    ensures Collapse(s) == Lead(s) + JoinWith(Words(PySpace, s), " ") + Trail(s)
  {
    var a := s[..i];
    CollapseStep(s, i, j);
    assert Lead(s) == "" by { assert s[0] == a[0]; }
    assert Words(PySpace, s) == [a];
    assert Trail(s) == " " by { assert s[|s| - 1] == s[i..j][j - 1 - i]; }
  }

  lemma ShapeLeadingSpace(s: string, i: nat, j: nat)
    requires i == FirstIn(PySpace, s, 0) < |s| && j == RunEnd(PySpace, s, i)
    requires i == 0 && Words(PySpace, s) != []
    requires s[j..] != [] ==>
      Collapse(s[j..]) == Lead(s[j..]) + JoinWith(Words(PySpace, s[j..]), " ") + Trail(s[j..])
    ensures Collapse(s) == Lead(s) + JoinWith(Words(PySpace, s), " ") + Trail(s)
  {
    var t := s[j..];
    CollapseStep(s, i, j);
    assert s[..i] == [];
    assert Words(PySpace, s) == Words(PySpace, t);
    assert Lead(t) == "";
    assert Trail(t) == Trail(s) by { assert t[|t| - 1] == s[|s| - 1]; }
    assert Lead(s) == " " by { assert InClass(PySpace, s[0]); }
    SpaceThenEmptyLead(s[..i], Lead(t), JoinWith(Words(PySpace, t), " "), Trail(t));
  }

  lemma SpaceThenEmptyLead(empty: string, lead: string, joined: string, trail: string)
    requires empty == [] && lead == []
    ensures empty + " " + (lead + joined + trail) == " " + joined + trail
  {
  }

  /** The normalised text is the whitespace-separated words joined by single
      spaces. */
  lemma NormalizeIsJoinedWords(s: string)
    ensures NormalizeText(s) == JoinWith(Words(PySpace, s), " ")
  {
    var ws := Words(PySpace, s);
    WordsShape(PySpace, s);
    if ws != [] {
      CollapseShape(s);
      JoinTrimmed(ws);
      TrimPadded(Lead(s), JoinWith(ws, " "), Trail(s));
    } else {
      if !AllIn(PySpace, s) {
        WordsNonEmpty(PySpace, s);
      }
      CollapseOfBlank(s);
      TrimProps(PySpace, Collapse(s));
    }
  }

  /** A blank text collapses to whitespace only. */
  lemma {:induction false} CollapseOfBlank(s: string)
    requires AllIn(PySpace, s)
    ensures AllIn(PySpace, Collapse(s))
  {
    var i := FirstIn(PySpace, s, 0);
    if i < |s| {
      var j := RunEnd(PySpace, s, i);
      assert i == 0;
      assert j == |s|;
      CollapseStep(s, i, j);
    } else {
      PiecesOfPlain(s);
    }
  }

  /** Joined plain words are single-spaced. */
  lemma {:induction false} JoinSingleSpaced(ws: seq<string>)
    requires Plain(ws)
    ensures SingleSpaced(JoinWith(ws, " "))
    decreases |ws|
  {
    if |ws| > 1 {
      var rest := ws[1..];
      JoinSingleSpaced(rest);
      JoinEnds(rest);
      var w := ws[0];
      var tail := JoinWith(rest, " ");
      var j := JoinWith(ws, " ");
      assert j == w + " " + tail;
      forall i | 0 <= i < |j| && InClass(PySpace, j[i])
        ensures j[i] == ' ' && 0 < i < |j| - 1 && !InClass(PySpace, j[i - 1]) && !InClass(PySpace, j[i + 1])
      {
        if i == |w| {
          assert j[i - 1] == w[|w| - 1];
          assert j[i + 1] == tail[0];
        } else if i > |w| + 1 {
          var k := i - |w| - 1;
          assert j[i] == tail[k];
          assert j[i - 1] == tail[k - 1];
          assert j[i + 1] == tail[k + 1];
        }
      }
    }
  }

  /** The words of joined plain words are those words. */
  lemma {:induction false} WordsOfJoin(ws: seq<string>)
    requires Plain(ws)
    ensures Words(PySpace, JoinWith(ws, " ")) == ws
    decreases |ws|
  {
    if ws == [] {
      assert Tokens(PySpace, []) == [[]];
    } else if |ws| == 1 {
      WordsOfPlain(ws[0]);
    } else {
      var w, rest := ws[0], ws[1..];
      var tail := JoinWith(rest, " ");
      var j := JoinWith(ws, " ");
      JoinEnds(rest);
      assert j == w + " " + tail;
      var i := FirstIn(PySpace, j, 0);
      forall x | 0 <= x < |w| ensures !InClass(PySpace, j[x]) { assert j[x] == w[x]; }
      assert InClass(PySpace, j[|w|]);
      assert i == |w|;
      var e := RunEnd(PySpace, j, i);
      assert j[|w| + 1] == tail[0];
      assert e == |w| + 1;
      assert j[..i] == w;
      assert j[e..] == tail;
      CollapseStep(j, i, e);
      WordsOfJoin(rest);
    }
  }

  /** Removing all whitespace from joined plain words gives the words run
      together. */
  lemma {:induction false} RemoveOfJoin(ws: seq<string>)
    requires Plain(ws)
    ensures Remove(PySpace, JoinWith(ws, " ")) == Concat(ws)
    decreases |ws|
  {
    if |ws| == 1 {
      RemoveNone(PySpace, ws[0]);
      assert Concat(ws) == ws[0] + Concat([]);
    } else if |ws| > 1 {
      var w, rest := ws[0], ws[1..];
      RemoveOfJoin(rest);
      RemoveStep(PySpace, w, " ", JoinWith(rest, " "));
    }
  }

  /** `normalize_text`'s output has no leading or trailing whitespace and
      each of its whitespace runs is a single space. */
  lemma NormalizeShape(s: string)
    ensures IsTrimmed(PySpace, NormalizeText(s))
    ensures SingleSpaced(NormalizeText(s))
  {
    var ws := Words(PySpace, s);
    NormalizeIsJoinedWords(s);
    WordsShape(PySpace, s);
    assert Plain(ws) by {
      forall k | 0 <= k < |ws| ensures ws[k] != [] && NoneIn(PySpace, ws[k]) {
        assert ws[k] in ws;
      }
    }
    JoinSingleSpaced(ws);
    if ws != [] {
      JoinTrimmed(ws);
    }
  }

  /** Normalising twice is normalising once. */
  lemma NormalizeIdempotent(s: string)
    ensures NormalizeText(NormalizeText(s)) == NormalizeText(s)
  {
    var ws := Words(PySpace, s);
    NormalizeIsJoinedWords(s);
    WordsShape(PySpace, s);
    WordsOfJoin(ws);
    NormalizeIsJoinedWords(NormalizeText(s));
  }

  /** Only whitespace changes: deleting all whitespace from the input and
      from the output gives the same text. */
  lemma NormalizeKeepsNonSpace(s: string)
    ensures Remove(PySpace, NormalizeText(s)) == Remove(PySpace, s)
  {
    var ws := Words(PySpace, s);
    NormalizeIsJoinedWords(s);
    WordsShape(PySpace, s);
    RemoveOfJoin(ws);
    WordsRemove(PySpace, s);
  }

  // ---------------------------------------------------------------------------
  // split_sentences, regular-expression fallback

  /** Where `(?<=[.!?])\s+` can start matching: a whitespace character right
      after `.`, `!` or `?`. */
  predicate SplitPoint(s: string, i: int) {
    0 < i < |s| && InClass(SentenceEnd, s[i - 1]) && InClass(PySpace, s[i])
  }

  function NextSplit(s: string, i: nat): (r: nat)
    requires i <= |s|
    ensures i <= r <= |s|
    ensures r < |s| ==> SplitPoint(s, r)
    ensures forall j :: i <= j < r ==> !SplitPoint(s, j)
    decreases |s| - i
  {
    if i == |s| || SplitPoint(s, i) then i else NextSplit(s, i + 1)
  }

  /** `re.split(r"(?<=[.!?])\s+", s)`: the match takes the whole whitespace
      run after the sentence end. */
  function Segments(s: string): (r: seq<string>)
    ensures |r| >= 1
    decreases |s|
  {
    var i := NextSplit(s, 0);
    if i == |s| then [s]
    else
      var j := RunEnd(PySpace, s, i);
      [s[..i]] + Segments(s[j..])
  }

  /** `[s.strip() for s in segments]`. */
  function StripAll(xs: seq<string>): (r: seq<string>)
    ensures |r| == |xs|
    ensures forall k :: 0 <= k < |xs| ==> r[k] == Trim(PySpace, xs[k])
  {
    seq(|xs|, k requires 0 <= k < |xs| => Trim(PySpace, xs[k]))
  }

  /** The fallback's result: the stripped segments that are not empty. */
  function SplitSentencesFallback(text: string): seq<string> {
    NonEmpty(StripAll(Segments(text)))
  }

  /** Every segment but the last ends with `.`, `!` or `?`. */
  lemma {:induction false} SegmentsEnd(s: string)
    ensures forall k :: 0 <= k < |Segments(s)| - 1 ==>
      Segments(s)[k] != [] && InClass(SentenceEnd, Segments(s)[k][|Segments(s)[k]| - 1])
    decreases |s|
  {
    var i := NextSplit(s, 0);
    if i < |s| {
      var j := RunEnd(PySpace, s, i);
      SegmentsEnd(s[j..]);
      var segs := Segments(s);
      var rest := Segments(s[j..]);
      assert segs == [s[..i]] + rest;
      forall k | 0 <= k < |segs| - 1 ensures segs[k] != [] && InClass(SentenceEnd, segs[k][|segs[k]| - 1]) {
        if k == 0 {
          assert segs[0] == s[..i] && s[..i][i - 1] == s[i - 1];
        } else {
          assert segs[k] == rest[k - 1];
        }
      }
    }
  }

  /** No segment contains a split point: splits happen exactly after a
      sentence end followed by whitespace. */
  lemma {:induction false} SegmentsUnsplit(s: string)
    ensures forall k, p :: 0 <= k < |Segments(s)| ==> !SplitPoint(Segments(s)[k], p)
    decreases |s|
  {
    var i := NextSplit(s, 0);
    if i < |s| {
      var j := RunEnd(PySpace, s, i);
      SegmentsUnsplit(s[j..]);
      var segs := Segments(s);
      var rest := Segments(s[j..]);
      assert segs == [s[..i]] + rest;
      forall k, p | 0 <= k < |segs| ensures !SplitPoint(segs[k], p) {
        if k == 0 {
          if 0 < p < i {
            assert s[..i][p - 1] == s[p - 1] && s[..i][p] == s[p];
            assert !SplitPoint(s, p);
          }
        } else {
          assert segs[k] == rest[k - 1];
        }
      }
    }
  }

  /** Deleting whitespace from a text around a whitespace run. */
  lemma RemoveGap(a: string, b: string, c: string)
    requires AllIn(PySpace, b)
    ensures Remove(PySpace, a + b + c) == Remove(PySpace, a) + Remove(PySpace, c)
  {
    RemoveAppend(PySpace, a + b, c);
    RemoveAppend(PySpace, a, b);
    RemoveAll(PySpace, b);
  }

  lemma RemoveAcrossRun(s: string, i: nat, j: nat)
    requires i <= j <= |s| && AllIn(PySpace, s[i..j])
    ensures Remove(PySpace, s) == Remove(PySpace, s[..i]) + Remove(PySpace, s[j..])
  {
    assert s == s[..i] + s[i..j] + s[j..];
    RemoveGap(s[..i], s[i..j], s[j..]);
  }

  /** Nothing but whitespace is lost between the text and its segments. */
  lemma {:induction false} SegmentsKeepNonSpace(s: string)
    ensures Remove(PySpace, Concat(Segments(s))) == Remove(PySpace, s)
    decreases |s|
  {
    var i := NextSplit(s, 0);
    if i == |s| {
      assert Segments(s) == [s];
      assert Concat([s]) == s + Concat([]) == s;
    } else {
      var j := RunEnd(PySpace, s, i);
      var rest := Segments(s[j..]);
      assert Segments(s) == [s[..i]] + rest;
      SegmentsKeepNonSpace(s[j..]);
      ConcatCons(s[..i], rest);
      RemoveAppend(PySpace, s[..i], Concat(rest));
      RemoveAcrossRun(s, i, j);
    }
  }

  /** Every sentence the fallback returns is stripped and non-empty. */
  lemma FallbackSentencesStripped(text: string)
    ensures forall x :: x in SplitSentencesFallback(text) ==> x != [] && IsTrimmed(PySpace, x)
  {
    StrippedAll(Segments(text));
  }

  /** Each stripped text is the original with its leading and trailing
      whitespace cut off: it neither starts nor ends with whitespace, sits
      between whitespace-only padding in the original, and is empty exactly
      when the original is all whitespace. */
  lemma {:induction false} StripAllAt(xs: seq<string>, k: nat)
    requires k < |xs|
    ensures var r := StripAll(xs)[k]; var s := xs[k]; var a := |s| - |TrimStart(PySpace, s)|;
      && IsTrimmed(PySpace, r)
      && (r == [] <==> AllIn(PySpace, s))
      && 0 <= a && a + |r| <= |s| && r == s[a..a + |r|]
      && AllIn(PySpace, s[..a]) && AllIn(PySpace, s[a + |r|..])
  {
    TrimProps(PySpace, xs[k]);
    TrimPadding(PySpace, xs[k]);
  }

  lemma StrippedAll(xs: seq<string>)
    ensures forall x :: x in StripAll(xs) ==> IsTrimmed(PySpace, x)
  {
    forall x | x in StripAll(xs) ensures IsTrimmed(PySpace, x) {
      var k :| 0 <= k < |xs| && StripAll(xs)[k] == x;
      TrimProps(PySpace, xs[k]);
    }
  }

  /** `split_sentences`: the tokenizer's stripped, non-empty sentences when
      there are any, the regular-expression fallback otherwise.
      `tokenized` is the tokenizer's answer for the text, None when it
      raises. */
  function SplitSentencesWith(text: string, tokenized: Option<seq<string>>): seq<string> {
    var fromTokenizer := if tokenized.Some? then NonEmpty(StripAll(tokenized.value)) else [];
    if fromTokenizer != [] then fromTokenizer else SplitSentencesFallback(text)
  }

  /** Whichever way the text is split, every sentence is stripped and
      non-empty; without a tokenizer the fallback decides. */
  lemma SentencesStripped(text: string, tokenized: Option<seq<string>>)
    ensures forall x :: x in SplitSentencesWith(text, tokenized) ==> x != [] && IsTrimmed(PySpace, x)
    ensures tokenized.None? ==> SplitSentencesWith(text, tokenized) == SplitSentencesFallback(text)
  {
    FallbackSentencesStripped(text);
    if tokenized.Some? {
      StrippedAll(tokenized.value);
    }
  }

  /** Deleting whitespace leaves nothing exactly when there was only
      whitespace. */
  lemma {:induction false} RemoveEmpty(s: string)
    ensures Remove(PySpace, s) == [] <==> AllIn(PySpace, s)
    decreases |s|
  {
    if s != [] {
      RemoveEmpty(s[1..]);
      if AllIn(PySpace, s[1..]) && InClass(PySpace, s[0]) {
        assert AllIn(PySpace, s) by {
          forall x | 0 <= x < |s| ensures InClass(PySpace, s[x]) {
            if x > 0 { assert s[x] == s[1..][x - 1]; }
          }
        }
      }
    }
  }

  /** Blank segments run together into a blank text. */
  lemma {:induction false} BlankSegments(segs: seq<string>)
    requires forall k :: 0 <= k < |segs| ==> AllIn(PySpace, segs[k])
    ensures Remove(PySpace, Concat(segs)) == []
    decreases |segs|
  {
    if segs != [] {
      BlankSegments(segs[1..]);
      RemoveAppend(PySpace, segs[0], Concat(segs[1..]));
      RemoveAll(PySpace, segs[0]);
    }
  }

  /** A text that is not blank has at least one sentence, whichever way it
      is split. */
  lemma SentencesOfNonBlank(text: string, tokenized: Option<seq<string>>)
    requires !AllIn(PySpace, text)
    ensures SplitSentencesWith(text, tokenized) != []
  {
    var segs := Segments(text);
    var stripped := StripAll(segs);
    if NonEmpty(stripped) == [] {
      forall k | 0 <= k < |segs| ensures AllIn(PySpace, segs[k]) {
        assert stripped[k] in stripped;
        TrimProps(PySpace, segs[k]);
      }
      BlankSegments(segs);
      SegmentsKeepNonSpace(text);
      RemoveEmpty(text);
    }
  }
}
