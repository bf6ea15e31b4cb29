/** Character classes, splitting, joining, trimming and case mapping shared by
    the JavaScript and Python parts of the model.

    JavaScript's `\s` and `String.prototype.trim` use one whitespace set,
    Python's `\s`, `str.split()` and `str.strip()` another; both are spelled
    out below. Case mapping is restricted to ASCII letters. */
module Strings {

  datatype CharClass = JsSpace | PySpace | SentenceEnd | Letter

  /** The characters matched by JavaScript `\s`, Python `\s` (str.isspace),
      the class `[.!?]`, or the class `[A-Za-z']`. */
  predicate InClass(k: CharClass, c: char) {
    match k
    case JsSpace =>
      c == '\t' || c == '\n' || c == '\U{000B}' || c == '\U{000C}' || c == '\r' || c == ' '
      || c == '\U{00A0}' || c == '\U{1680}' || ('\U{2000}' <= c <= '\U{200A}')
      || c == '\U{2028}' || c == '\U{2029}' || c == '\U{202F}' || c == '\U{205F}'
      || c == '\U{3000}' || c == '\U{FEFF}'
    case PySpace =>
      c == '\t' || c == '\n' || c == '\U{000B}' || c == '\U{000C}' || c == '\r' || c == ' '
      || ('\U{001C}' <= c <= '\U{001F}') || c == '\U{0085}'
      || c == '\U{00A0}' || c == '\U{1680}' || ('\U{2000}' <= c <= '\U{200A}')
      || c == '\U{2028}' || c == '\U{2029}' || c == '\U{202F}' || c == '\U{205F}'
      || c == '\U{3000}'
    case SentenceEnd => c == '.' || c == '!' || c == '?'
    case Letter => 'A' <= c <= 'Z' || 'a' <= c <= 'z' || c == '\''
  }

  predicate NoneIn(k: CharClass, s: string) {
    forall i :: 0 <= i < |s| ==> !InClass(k, s[i])
  }

  predicate AllIn(k: CharClass, s: string) {
    forall i :: 0 <= i < |s| ==> InClass(k, s[i])
  }

  /** Index of the first character of class k at or after i (|s| if none). */
  function FirstIn(k: CharClass, s: string, i: nat): (r: nat)
    requires i <= |s|
    ensures i <= r <= |s|
    ensures r < |s| ==> InClass(k, s[r])
    ensures forall j :: i <= j < r ==> !InClass(k, s[j])
    decreases |s| - i
  {
    if i == |s| || InClass(k, s[i]) then i else FirstIn(k, s, i + 1)
  }

  /** Index just past the run of class-k characters that starts at i. */
  function RunEnd(k: CharClass, s: string, i: nat): (r: nat)
    requires i <= |s|
    ensures i <= r <= |s|
    ensures r < |s| ==> !InClass(k, s[r])
    ensures forall j :: i <= j < r ==> InClass(k, s[j])
    decreases |s| - i
  {
    if i == |s| || !InClass(k, s[i]) then i else RunEnd(k, s, i + 1)
  }

  /** `s.split(/(<class>+)/)` in JavaScript: the pieces between maximal runs
      of class-k characters, with the runs themselves kept as tokens in between. */
  function Tokens(k: CharClass, s: string): (r: seq<string>)
    ensures |r| >= 1 && r[0] == s[..FirstIn(k, s, 0)]
    decreases |s|
  {
    var i := FirstIn(k, s, 0);
    if i == |s| then [s]
    else
      var j := RunEnd(k, s, i);
      [s[..i], s[i..j]] + Tokens(k, s[j..])
  }

  function Concat(ts: seq<string>): string {
    if ts == [] then [] else ts[0] + Concat(ts[1..])
  }

  lemma ConcatAppend(a: seq<string>, b: seq<string>)
    ensures Concat(a + b) == Concat(a) + Concat(b)
  {
    if a != [] {
      var ab := a + b;
      assert ab[0] == a[0];
      assert ab[1..] == a[1..] + b;
      ConcatAppend(a[1..], b);
      calc {
        Concat(ab);
        ab[0] + Concat(ab[1..]);
        a[0] + (Concat(a[1..]) + Concat(b));
        (a[0] + Concat(a[1..])) + Concat(b);
      }
    } else {
      assert a + b == b;
    }
  }

  /** The shape of a split with a capturing group: class-free pieces and
      non-empty class runs alternate, starting and ending with a piece; only
      the first and the last piece may be empty. */
  predicate Alternating(k: CharClass, ts: seq<string>)
    decreases |ts|
  {
    if |ts| == 1 then NoneIn(k, ts[0])
    else
      && |ts| >= 3
      && NoneIn(k, ts[0])
      && ts[1] != [] && AllIn(k, ts[1])
      && (|ts| > 3 ==> ts[2] != [])
      && Alternating(k, ts[2..])
  }

  /** The alternation, index by index. */
  lemma {:induction false} AlternatingAt(k: CharClass, ts: seq<string>, i: nat)
    requires Alternating(k, ts) && i < |ts|
    ensures |ts| % 2 == 1
    ensures i % 2 == 0 ==> NoneIn(k, ts[i])
    ensures i % 2 == 1 ==> ts[i] != [] && AllIn(k, ts[i])
    ensures 0 < i < |ts| - 1 ==> ts[i] != []
    decreases |ts|
  {
    if |ts| > 1 {
      if i >= 2 {
        AlternatingAt(k, ts[2..], i - 2);
        assert ts[i] == ts[2..][i - 2];
      } else {
        AlternatingAt(k, ts[2..], 0);
      }
    }
  }

  /** Joining the tokens gives back the input, and the tokens alternate. */
  lemma TokensJoin(k: CharClass, s: string)
    ensures Concat(Tokens(k, s)) == s
    ensures Alternating(k, Tokens(k, s))
  {
    TokensConcat(k, s);
    TokensAlternate(k, s);
  }

  lemma {:induction false} TokensConcat(k: CharClass, s: string)
    ensures Concat(Tokens(k, s)) == s
    decreases |s|
  {
    var i := FirstIn(k, s, 0);
    if i == |s| {
      assert Concat([s]) == s + Concat([]);
    } else {
      var j := RunEnd(k, s, i);
      TokensConcat(k, s[j..]);
      ConcatSplitAt(s, i, j, Tokens(k, s[j..]));
    }
  }

  lemma ConcatSplitAt(s: string, i: nat, j: nat, rest: seq<string>)
    requires i <= j <= |s| && Concat(rest) == s[j..]
    ensures Concat([s[..i], s[i..j]] + rest) == s
  {
    var w, sp := s[..i], s[i..j];
    ConcatAppend([w, sp], rest);
    assert Concat([w, sp]) == w + Concat([sp]);
    assert Concat([sp]) == sp + Concat([]);
    assert w + sp + s[j..] == s;
  }

  lemma {:induction false} TokensAlternate(k: CharClass, s: string)
    ensures Alternating(k, Tokens(k, s))
    decreases |s|
  {
    var i := FirstIn(k, s, 0);
    if i == |s| {
      assert Tokens(k, s) == [s];
      assert s[..i] == s;
    } else {
      var j := RunEnd(k, s, i);
      var t := s[j..];
      var rest := Tokens(k, t);
      TokensAlternate(k, t);
      var w, sp := s[..i], s[i..j];
      var ts := [w, sp] + rest;
      assert Tokens(k, s) == ts;
      assert NoneIn(k, w) by {
        forall x | 0 <= x < |w| ensures !InClass(k, w[x]) { assert w[x] == s[x]; }
      }
      assert AllIn(k, sp) by {
        forall x | 0 <= x < |sp| ensures InClass(k, sp[x]) { assert sp[x] == s[i + x]; }
      }
      assert sp != [];
      assert ts[2..] == rest;
      if |rest| > 1 {
        assert FirstIn(k, t, 0) > 0;
        assert rest[0] != [];
      }
      assert ts[0] == w && ts[1] == sp;
    }
  }

  /** Any alternating decomposition of s is the split of s: the split is the
      only token sequence with that shape. */
  lemma {:induction false} TokensUnique(k: CharClass, s: string, ts: seq<string>)
    requires Alternating(k, ts) && Concat(ts) == s
    ensures ts == Tokens(k, s)
    decreases |ts|
  {
    if |ts| == 1 {
      assert Concat(ts) == ts[0] + Concat([]);
    } else {
      var w, sp, rest := ts[0], ts[1], ts[2..];
      assert ts == [w, sp] + rest;
      ConcatAppend([w, sp], rest);
      assert Concat([w, sp]) == w + sp;
      var t := Concat(rest);
      assert s == w + sp + t;
      var i := FirstIn(k, s, 0);
      assert s[|w|] == sp[0];
      forall x | 0 <= x < |w| ensures !InClass(k, s[x]) { assert s[x] == w[x]; }
      assert i == |w|;
      var j := RunEnd(k, s, i);
      forall x | |w| <= x < |w| + |sp| ensures InClass(k, s[x]) { assert s[x] == sp[x - |w|]; }
      assert t == rest[0] + Concat(rest[1..]);
      assert NoneIn(k, rest[0]);
      if |rest| == 1 {
        assert Concat(rest[1..]) == [];
      }
      if t != [] {
        assert rest[0] != [];
        assert s[|w| + |sp|] == t[0] == rest[0][0];
      }
      assert j == |w| + |sp|;
      assert s[j..] == t;
      TokensUnique(k, t, rest);
    }
  }

  /** The pieces between separators, `s.split(/<class>+/)`: the even tokens. */
  function Pieces(k: CharClass, s: string): seq<string> {
    Evens(Tokens(k, s))
  }

  function Evens<T>(ts: seq<T>): seq<T> {
    if |ts| <= 1 then ts else [ts[0]] + Evens(ts[2..])
  }

  /** `.filter(Boolean)` on a list of strings. */
  function NonEmpty(ts: seq<string>): (r: seq<string>)
    ensures forall i :: 0 <= i < |r| ==> r[i] != []
    ensures forall x :: x in r <==> x in ts && x != []
  {
    if ts == [] then []
    else if ts[0] == [] then NonEmpty(ts[1..])
    else [ts[0]] + NonEmpty(ts[1..])
  }

  /** The non-empty pieces between runs of class k (`split().filter(Boolean)`,
      Python `str.split()`). */
  function Words(k: CharClass, s: string): seq<string> {
    NonEmpty(Pieces(k, s))
  }

  function TrimStart(k: CharClass, s: string): string {
    if s != [] && InClass(k, s[0]) then TrimStart(k, s[1..]) else s
  }

  function TrimEnd(k: CharClass, s: string): string {
    if s != [] && InClass(k, s[|s| - 1]) then TrimEnd(k, s[..|s| - 1]) else s
  }

  /** TrimStart drops the longest class-k prefix: what remains is a suffix
      that starts outside k, after class-k characters only. */
  lemma {:induction false} TrimStartSpec(k: CharClass, s: string)
    ensures var r := TrimStart(k, s);
      && (r == [] || !InClass(k, r[0]))
      && |r| <= |s| && r == s[|s| - |r|..]
      && AllIn(k, s[..|s| - |r|])
    decreases |s|
  {
    if s != [] && InClass(k, s[0]) {
      var t := s[1..];
      TrimStartSpec(k, t);
      var r := TrimStart(k, t);
      var m := |s| - |r|;
      assert t[|t| - |r|..] == s[m..];
      forall x | 0 <= x < m ensures InClass(k, s[..m][x]) {
        if x > 0 {
          assert s[..m][x] == t[..|t| - |r|][x - 1];
        }
      }
    }
  }

  /** TrimEnd drops the longest class-k suffix: what remains is a prefix
      that ends outside k, before class-k characters only. */
  lemma {:induction false} TrimEndSpec(k: CharClass, s: string)
    ensures var r := TrimEnd(k, s);
      && (r == [] || !InClass(k, r[|r| - 1]))
      && |r| <= |s| && r == s[..|r|]
      && AllIn(k, s[|r|..])
    decreases |s|
  {
    if s != [] && InClass(k, s[|s| - 1]) {
      var t := s[..|s| - 1];
      TrimEndSpec(k, t);
      var r := TrimEnd(k, t);
      assert t[..|r|] == s[..|r|];
      forall x | 0 <= x < |s| - |r| ensures InClass(k, s[|r|..][x]) {
        if x < |t| - |r| {
          assert s[|r|..][x] == t[|r|..][x];
        }
      }
    }
  }

  /** JavaScript `trim()` (k = JsSpace) and Python `strip()` (k = PySpace). */
  function Trim(k: CharClass, s: string): string {
    TrimEnd(k, TrimStart(k, s))
  }

  predicate IsTrimmed(k: CharClass, s: string) {
    s == [] || (!InClass(k, s[0]) && !InClass(k, s[|s| - 1]))
  }

  lemma TrimProps(k: CharClass, s: string)
    ensures IsTrimmed(k, Trim(k, s))
    ensures Trim(k, s) == [] <==> AllIn(k, s)
  {
    var a := TrimStart(k, s);
    var r := TrimEnd(k, a);
    TrimStartSpec(k, s);
    TrimEndSpec(k, a);
    TrimFacts(k, s, a, r);
  }

  /** TrimProps over what TrimStart and TrimEnd promise: a suffix of s after
      class-k characters that starts outside k, then a prefix of it before
      class-k characters that ends outside k. */
  lemma TrimFacts(k: CharClass, s: string, a: string, r: string)
    requires |a| <= |s| && a == s[|s| - |a|..] && AllIn(k, s[..|s| - |a|]) && (a == [] || !InClass(k, a[0]))
    requires |r| <= |a| && r == a[..|r|] && AllIn(k, a[|r|..]) && (r == [] || !InClass(k, r[|r| - 1]))
    ensures IsTrimmed(k, r)
    ensures r == [] <==> AllIn(k, s)
  {
    if r != [] {
      assert r[0] == a[0];
    }
    AllInSplit(k, s, |s| - |a|);
    if r == [] {
      assert a[|r|..] == a;
    }
  }

  /** A string is all class-k iff both parts around any cut are. */
  lemma AllInSplit(k: CharClass, s: string, m: nat)
    requires m <= |s|
    ensures AllIn(k, s) <==> AllIn(k, s[..m]) && AllIn(k, s[m..])
  {
    if AllIn(k, s[..m]) && AllIn(k, s[m..]) {
      forall i | 0 <= i < |s| ensures InClass(k, s[i]) {
        if i < m {
          assert s[i] == s[..m][i];
        } else {
          assert s[i] == s[m..][i - m];
        }
      }
    }
  }

  /** Trimming cuts s into class-k padding, the trimmed text and class-k
      padding, with the text starting after the longest class-k prefix. */
  lemma {:induction false} TrimPadding(k: CharClass, s: string)
    ensures var a := |s| - |TrimStart(k, s)|; var t := Trim(k, s);
      && 0 <= a && a + |t| <= |s| && t == s[a..a + |t|]
      && AllIn(k, s[..a]) && AllIn(k, s[a + |t|..])
  {
    var u := TrimStart(k, s);
    TrimStartSpec(k, s);
    TrimEndSpec(k, u);
    PaddingFacts(k, s, u, TrimEnd(k, u));
  }

  /** TrimPadding over what TrimStart and TrimEnd promise. */
  lemma PaddingFacts(k: CharClass, s: string, u: string, t: string)
    requires |u| <= |s| && u == s[|s| - |u|..] && AllIn(k, s[..|s| - |u|])
    requires |t| <= |u| && t == u[..|t|] && AllIn(k, u[|t|..])
    ensures var a := |s| - |u|;
      && 0 <= a && a + |t| <= |s| && t == s[a..a + |t|]
      && AllIn(k, s[..a]) && AllIn(k, s[a + |t|..])
  {
    var a := |s| - |u|;
    assert u[|t|..] == s[a + |t|..];
  }

  lemma TrimOfTrimmed(k: CharClass, s: string)
    requires IsTrimmed(k, s)
    ensures Trim(k, s) == s
  {
  }

  lemma TrimIdempotent(k: CharClass, s: string)
    ensures Trim(k, Trim(k, s)) == Trim(k, s)
  {
    TrimProps(k, s);
    TrimOfTrimmed(k, Trim(k, s));
  }

  lemma TrimOfClassFree(k: CharClass, s: string)
    requires NoneIn(k, s)
    ensures Trim(k, s) == s
  {
  }

  /** `s.startsWith(p)`. */
  predicate IsPrefix(p: string, s: string) {
    |p| <= |s| && s[..|p|] == p
  }

  /** Substring test (`sub in s` in Python, `s.includes(sub)` in JavaScript). */
  predicate Contains(s: string, sub: string)
    decreases |s|
  {
    IsPrefix(sub, s) || (s != [] && Contains(s[1..], sub))
  }

  lemma ContainsAt(s: string, sub: string, i: nat)
    requires i + |sub| <= |s| && s[i..i + |sub|] == sub
    ensures Contains(s, sub)
    decreases i
  {
    if i > 0 {
      assert s[1..][i - 1..i - 1 + |sub|] == sub;
      ContainsAt(s[1..], sub, i - 1);
    }
  }

  function LowerChar(c: char): (r: char)
    ensures !('A' <= r <= 'Z')
  {
    if 'A' <= c <= 'Z' then (c as int + 32) as char else c
  }

  function UpperChar(c: char): (r: char)
    ensures !('a' <= r <= 'z')
  {
    if 'a' <= c <= 'z' then (c as int - 32) as char else c
  }

  /** ASCII `toLowerCase()` / `lower()`. */
  function Lower(s: string): (r: string)
    ensures |r| == |s|
    ensures forall i :: 0 <= i < |s| ==> r[i] == LowerChar(s[i])
  {
    if s == [] then [] else [LowerChar(s[0])] + Lower(s[1..])
  }

  lemma LowerAppend(a: string, b: string)
    ensures Lower(a + b) == Lower(a) + Lower(b)
  {
  }

  /** `parts.join(sep)`. */
  function JoinWith(parts: seq<string>, sep: string): string {
    if parts == [] then []
    else if |parts| == 1 then parts[0]
    else parts[0] + sep + JoinWith(parts[1..], sep)
  }

  /** `s.split(c)` for a single separator character: the text between
      consecutive occurrences of c. */
  function SplitOn(s: string, c: char): (r: seq<string>)
    ensures |r| >= 1
    ensures forall i :: 0 <= i < |r| ==> c !in r[i]
    decreases |s|
  {
    if c !in s then [s]
    else
      var i := FirstOf(s, c);
      [s[..i]] + SplitOn(s[i + 1..], c)
  }

  function FirstOf(s: string, c: char): (i: nat)
    requires c in s
    ensures i < |s| && s[i] == c && c !in s[..i]
  {
    if s[0] == c then 0 else 1 + FirstOf(s[1..], c)
  }

  lemma {:induction false} SplitOnJoin(s: string, c: char)
    ensures JoinWith(SplitOn(s, c), [c]) == s
    decreases |s|
  {
    if c in s {
      var i := FirstOf(s, c);
      SplitOnJoin(s[i + 1..], c);
      var rest := SplitOn(s[i + 1..], c);
      assert SplitOn(s, c) == [s[..i]] + rest;
      JoinCons(s[..i], rest, [c]);
      assert s == s[..i] + [c] + s[i + 1..];
    }
  }

  lemma JoinCons(head: string, rest: seq<string>, sep: string)
    requires rest != []
    ensures JoinWith([head] + rest, sep) == head + sep + JoinWith(rest, sep)
  {
    assert ([head] + rest)[1..] == rest;
  }

  /** Joining the first n pieces of `s.split(c)` gives a prefix of s. */
  lemma {:induction false} SplitOnPrefix(s: string, c: char, n: nat)
    requires 1 <= n <= |SplitOn(s, c)|
    ensures IsPrefix(JoinWith(SplitOn(s, c)[..n], [c]), s)
    decreases |s|
  {
    if c in s {
      var i := FirstOf(s, c);
      var rest := SplitOn(s[i + 1..], c);
      assert SplitOn(s, c) == [s[..i]] + rest;
      if n == 1 {
        assert SplitOn(s, c)[..1] == [s[..i]];
      } else {
        SplitOnPrefix(s[i + 1..], c, n - 1);
        SplitOnPrefixStep(s, c, i, n, SplitOn(s, c), rest);
      }
    } else {
      assert SplitOn(s, c)[..n] == [s];
    }
  }

  /** The step of SplitOnPrefix: the first piece and the separator come
      before the joined prefix of the rest. */
  lemma SplitOnPrefixStep(s: string, c: char, i: nat, n: nat, pieces: seq<string>, rest: seq<string>)
    requires i < |s| && s[i] == c && pieces == [s[..i]] + rest
    requires 2 <= n <= 1 + |rest|
    requires IsPrefix(JoinWith(rest[..n - 1], [c]), s[i + 1..])
    ensures IsPrefix(JoinWith(pieces[..n], [c]), s)
  {
    assert pieces[..n] == [s[..i]] + rest[..n - 1];
    assert s == s[..i] + [c] + s[i + 1..];
    JoinConsPrefix(s[..i], [c], rest[..n - 1], s[i + 1..]);
  }

  /** Joining a head before words whose join is a prefix of u gives a
      prefix of the head, the separator and u. */
  lemma JoinConsPrefix(head: string, sep: string, ws: seq<string>, u: string)
    requires ws != [] && IsPrefix(JoinWith(ws, sep), u)
    ensures IsPrefix(JoinWith([head] + ws, sep), head + sep + u)
  {
    assert ([head] + ws)[1..] == ws;
    PrefixExtend(head + sep, JoinWith(ws, sep), u);
  }

  lemma PrefixExtend(a: string, t: string, u: string)
    requires IsPrefix(t, u)
    ensures IsPrefix(a + t, a + u)
  {
    assert (a + u)[..|a + t|] == a + u[..|t|];
  }

  /** With at least two pieces kept, joining the pieces of a non-empty
      string never gives the empty string. */
  lemma SplitOnJoinNonEmpty(s: string, c: char, n: nat)
    requires s != [] && 2 <= n
    ensures var ps := SplitOn(s, c);
      JoinWith(ps[..if n <= |ps| then n else |ps|], [c]) != []
  {
    var ps := SplitOn(s, c);
    if c in s {
      var i := FirstOf(s, c);
      var rest := SplitOn(s[i + 1..], c);
      assert ps == [s[..i]] + rest;
      var m := if n <= |ps| then n else |ps|;
      assert |ps[..m]| >= 2;
    } else {
      assert ps == [s];
    }
  }

  /** Some non-empty piece survives unless the string is all separators. */
  lemma {:induction false} WordsNonEmpty(k: CharClass, s: string)
    requires !AllIn(k, s)
    ensures Words(k, s) != []
    decreases |s|
  {
    var i := FirstIn(k, s, 0);
    if i == |s| {
      assert Tokens(k, s) == [s];
      assert Pieces(k, s) == [s];
    } else {
      var j := RunEnd(k, s, i);
      var rest := Tokens(k, s[j..]);
      assert Tokens(k, s) == [s[..i], s[i..j]] + rest;
      assert Pieces(k, s) == [s[..i]] + Pieces(k, s[j..]);
      if i > 0 {
        assert s[..i] in Words(k, s);
      } else {
        WordsNonEmpty(k, s[j..]);
        assert Words(k, s) == NonEmpty([[]] + Pieces(k, s[j..]));
        assert ([[]] + Pieces(k, s[j..]))[1..] == Pieces(k, s[j..]);
      }
    }
  }

  /** s with every class-k character deleted. */
  function Remove(k: CharClass, s: string): (r: string)
    ensures NoneIn(k, r) && |r| <= |s|
  {
    if s == [] then []
    else (if InClass(k, s[0]) then [] else [s[0]]) + Remove(k, s[1..])
  }

  lemma {:induction false} RemoveAppend(k: CharClass, a: string, b: string)
    ensures Remove(k, a + b) == Remove(k, a) + Remove(k, b)
    decreases |a|
  {
    if a != [] {
      assert (a + b)[1..] == a[1..] + b;
      RemoveAppend(k, a[1..], b);
    } else {
      assert a + b == b;
    }
  }

  lemma {:induction false} RemoveNone(k: CharClass, s: string)
    requires NoneIn(k, s)
    ensures Remove(k, s) == s
    decreases |s|
  {
    if s != [] {
      RemoveNone(k, s[1..]);
    }
  }

  lemma {:induction false} RemoveAll(k: CharClass, s: string)
    requires AllIn(k, s)
    ensures Remove(k, s) == []
    decreases |s|
  {
    if s != [] {
      RemoveAll(k, s[1..]);
    }
  }

  /** Dropping empty strings does not change the concatenation. */
  lemma {:induction false} ConcatNonEmpty(ts: seq<string>)
    ensures Concat(NonEmpty(ts)) == Concat(ts)
    decreases |ts|
  {
    if ts != [] {
      ConcatNonEmpty(ts[1..]);
      if ts[0] != [] {
        assert ([ts[0]] + NonEmpty(ts[1..]))[1..] == NonEmpty(ts[1..]);
      }
    }
  }

  /** One step of the split: the piece before the first run of class k,
      then the pieces after that run. */
  lemma PiecesStep(k: CharClass, s: string, i: nat, j: nat)
    requires i == FirstIn(k, s, 0) < |s| && j == RunEnd(k, s, i)
    ensures Pieces(k, s) == [s[..i]] + Pieces(k, s[j..])
    ensures NoneIn(k, s[..i]) && AllIn(k, s[i..j])
  {
    assert Tokens(k, s) == [s[..i], s[i..j]] + Tokens(k, s[j..]);
  }

  lemma RemoveStep(k: CharClass, a: string, b: string, c: string)
    requires NoneIn(k, a) && AllIn(k, b)
    ensures Remove(k, a + b + c) == a + Remove(k, c)
  {
    RemoveAppend(k, a + b, c);
    RemoveAppend(k, a, b);
    RemoveNone(k, a);
    RemoveAll(k, b);
  }

  /** Together the pieces of s are s with the class-k characters deleted. */
  lemma {:induction false} PiecesRemove(k: CharClass, s: string)
    ensures Concat(Pieces(k, s)) == Remove(k, s)
    decreases |s|
  {
    var i := FirstIn(k, s, 0);
    if i == |s| {
      PiecesWhole(k, s);
    } else {
      var j := RunEnd(k, s, i);
      PiecesRemove(k, s[j..]);
      PiecesRemoveStep(k, s, i, j);
    }
  }

  lemma PiecesRemoveStep(k: CharClass, s: string, i: nat, j: nat)
    requires i == FirstIn(k, s, 0) < |s| && j == RunEnd(k, s, i)
    requires Concat(Pieces(k, s[j..])) == Remove(k, s[j..])
    ensures Concat(Pieces(k, s)) == Remove(k, s)
  {
    PiecesStep(k, s, i, j);
    assert s == s[..i] + s[i..j] + s[j..];
    RemoveStep(k, s[..i], s[i..j], s[j..]);
    ConcatCons(s[..i], Pieces(k, s[j..]));
  }

  /** A string without class-k characters is its own single piece. */
  lemma PiecesWhole(k: CharClass, s: string)
    requires FirstIn(k, s, 0) == |s|
    ensures Concat(Pieces(k, s)) == Remove(k, s)
  {
    assert Tokens(k, s) == [s];
    assert Pieces(k, s) == [s];
    RemoveNone(k, s);
    assert Concat([s]) == s + Concat([]);
  }

  lemma ConcatCons(x: string, ts: seq<string>)
    ensures Concat([x] + ts) == x + Concat(ts)
  {
    assert ([x] + ts)[1..] == ts;
  }

  /** Together the words of s are s with the class-k characters deleted. */
  lemma WordsRemove(k: CharClass, s: string)
    ensures Concat(Words(k, s)) == Remove(k, s)
  {
    PiecesRemove(k, s);
    ConcatNonEmpty(Pieces(k, s));
  }

  /** Every word of s is non-empty and free of class-k characters. */
  lemma {:induction false} WordsShape(k: CharClass, s: string)
    ensures forall w :: w in Words(k, s) ==> w != [] && NoneIn(k, w)
    decreases |s|
  {
    var i := FirstIn(k, s, 0);
    if i == |s| {
      assert Tokens(k, s) == [s];
      assert Pieces(k, s) == [s];
    } else {
      var j := RunEnd(k, s, i);
      PiecesStep(k, s, i, j);
      var ps := Pieces(k, s[j..]);
      WordsShape(k, s[j..]);
      forall w | w in Words(k, s) ensures w != [] && NoneIn(k, w) {
        if w != s[..i] {
          assert w in NonEmpty(ps);
        }
      }
    }
  }

  /** `s.trim().split(/\s+/).filter(Boolean)` in JavaScript. */
  function SplitWords(s: string): seq<string> {
    Words(JsSpace, Trim(JsSpace, s))
  }

  /** `s.split(/[.!?]+/).filter(Boolean)` in JavaScript. */
  function SplitSentences(s: string): seq<string> {
    Words(SentenceEnd, s)
  }

  /** The words are non-empty and whitespace-free, and together they are the
      trimmed text with its whitespace deleted; likewise the sentences for
      `.`, `!` and `?`. */
  lemma SplitsMeaning(s: string)
    ensures forall w :: w in SplitWords(s) ==> w != [] && NoneIn(JsSpace, w)
    ensures Concat(SplitWords(s)) == Remove(JsSpace, Trim(JsSpace, s))
    ensures forall x :: x in SplitSentences(s) ==> x != [] && NoneIn(SentenceEnd, x)
    ensures Concat(SplitSentences(s)) == Remove(SentenceEnd, s)
  {
    WordsShape(JsSpace, Trim(JsSpace, s));
    WordsRemove(JsSpace, Trim(JsSpace, s));
    WordsShape(SentenceEnd, s);
    WordsRemove(SentenceEnd, s);
  }

  /** A text that is not all whitespace has a first word, and it is not empty. */
  lemma SplitWordsNonEmpty(s: string)
    requires !AllIn(JsSpace, s)
    ensures SplitWords(s) != [] && SplitWords(s)[0] != []
  {
    var trimmed := Trim(JsSpace, s);
    TrimProps(JsSpace, s);
    assert !InClass(JsSpace, trimmed[0]);
    WordsNonEmpty(JsSpace, trimmed);
    WordsShape(JsSpace, trimmed);
    assert SplitWords(s)[0] in SplitWords(s);
  }

  /** Joining parts whose first part is non-empty gives a non-empty string
      that starts with that part. */
  lemma JoinWithHead(parts: seq<string>, sep: string)
    requires parts != []
    ensures IsPrefix(parts[0], JoinWith(parts, sep))
  {
  }

  /** `s.slice(0, n)`. */
  function Slice<T>(s: seq<T>, n: nat): (r: seq<T>)
    ensures |r| <= n && |r| <= |s| && r == s[..|r|]
    ensures |s| >= n ==> |r| == n
    ensures |s| < n ==> r == s
  {
    if |s| <= n then s else s[..n]
  }

  function DigitChar(d: nat): char
    requires d < 10
  {
    "0123456789"[d]
  }

  /** Decimal rendering of a natural number (`str(n)`, `${n}`). */
  function NatToString(n: nat): (r: string)
    ensures r != []
    ensures forall i :: 0 <= i < |r| ==> '0' <= r[i] <= '9'
  {
    if n < 10 then [DigitChar(n)] else NatToString(n / 10) + [DigitChar(n % 10)]
  }

  function IntToString(n: int): string {
    if n < 0 then "-" + NatToString(-n) else NatToString(n)
  }

  /** The value of a string of decimal digits, read left to right. */
  function ParseNat(s: string): nat {
    if s == [] then 0
    else
      var c := s[|s| - 1];
      ParseNat(s[..|s| - 1]) * 10 + (if '0' <= c <= '9' then (c as int - '0' as int) else 0)
  }

  lemma DigitValue(d: nat)
    requires d < 10
    ensures DigitChar(d) as int - '0' as int == d
  {
    assert "0123456789" == ['0', '1', '2', '3', '4', '5', '6', '7', '8', '9'];
  }

  /** Reading a rendered number back gives the number. */
  lemma {:induction false} ParseNatToString(n: nat)
    ensures ParseNat(NatToString(n)) == n
    decreases n
  {
    var r := NatToString(n);
    if n < 10 {
      DigitValue(n);
      assert r[..0] == [];
    } else {
      ParseNatToString(n / 10);
      DigitValue(n % 10);
      assert r[..|r| - 1] == NatToString(n / 10);
    }
  }

  /** Different numbers render differently. */
  lemma NatToStringInjective(m: nat, n: nat)
    requires NatToString(m) == NatToString(n)
    ensures m == n
  {
    ParseNatToString(m);
    ParseNatToString(n);
  }
}
