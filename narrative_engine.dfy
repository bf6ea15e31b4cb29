/** The narrative consistency engine: entity grouping, the rolling-window
    consistency scores, their aggregation, and the live relevance check.
    The language models are parameters: the entities the entity recogniser
    finds, the sentences the tokenizer returns, and the class probabilities
    the NLI cross-encoder gives a pair of texts (None when it did not
    load). */
module NarrativeEngine {
  import opened Wrappers
  import opened Strings
  import opened TextUtils

  /** A recognised entity: its label (PERSON, GPE, ...) and its text. */
  datatype Entity = Entity(kind: string, text: string)

  /** The softmax of the cross-encoder's logits for one pair, by label. */
  datatype Probs = Probs(contradiction: real, entailment: real, neutral: real)

  /** The cross-encoder, scoring (premise, hypothesis). */
  type NliModel = (string, string) -> Probs

  predicate ValidProbs(p: Probs) {
    0.0 <= p.contradiction && 0.0 <= p.entailment && 0.0 <= p.neutral
    && p.contradiction + p.entailment + p.neutral == 1.0
  }

  function Min(a: int, b: int): int {
    if a <= b then a else b
  }

  // ---------------------------------------------------------------------------
  // _group_entities

  /** The grouping after the entities seen so far: `setdefault` for the
      label, then an append unless the text is already listed. */
  function Grouped(ents: seq<Entity>): map<string, seq<string>>
    decreases |ents|
  {
    if ents == [] then map[]
    else
      var g := Grouped(ents[..|ents| - 1]);
      var e := ents[|ents| - 1];
      var cur := if e.kind in g then g[e.kind] else [];
      g[e.kind := if e.text in cur then cur else cur + [e.text]]
  }

  /** `_group_entities`, with the recogniser's entities as input. */
  method GroupEntities(ents: seq<Entity>) returns (grouped: map<string, seq<string>>)
    ensures grouped == Grouped(ents)
  {
    grouped := map[];
    for k := 0 to |ents|
      invariant grouped == Grouped(ents[..k])
    {
      var e := ents[k];
      assert ents[..k + 1][..k] == ents[..k];
      if e.kind !in grouped {
        grouped := grouped[e.kind := []];
      }
      if e.text !in grouped[e.kind] {
        grouped := grouped[e.kind := grouped[e.kind] + [e.text]];
      }
    }
    assert ents[..|ents|] == ents;
  }

  /** The texts of the entities with label `l`, in order, repeats kept. */
  function TextsOf(ents: seq<Entity>, l: string): seq<string>
    decreases |ents|
  {
    if ents == [] then []
    else TextsOf(ents[..|ents| - 1], l) + (if ents[|ents| - 1].kind == l then [ents[|ents| - 1].text] else [])
  }

  /** `xs` with every occurrence of `x` removed. */
  function Without(xs: seq<string>, x: string): (r: seq<string>)
    ensures |r| <= |xs|
    ensures forall y :: y in r <==> y in xs && y != x
  {
    if xs == [] then []
    else (if xs[0] == x then [] else [xs[0]]) + Without(xs[1..], x)
  }

  predicate NoDuplicates(xs: seq<string>) {
    forall i, j :: 0 <= i < j < |xs| ==> xs[i] != xs[j]
  }

  /** The distinct elements of `xs` in order of first occurrence: keep the
      head and drop its later copies. */
  function DistinctFirst(xs: seq<string>): (r: seq<string>)
    ensures forall y :: y in r <==> y in xs
    ensures NoDuplicates(r)
    decreases |xs|
  {
    if xs == [] then []
    else
      var rest := DistinctFirst(Without(xs[1..], xs[0]));
      assert xs[0] !in rest;
      [xs[0]] + rest
  }

  lemma {:induction false} WithoutAppend(a: seq<string>, b: seq<string>, x: string)
    ensures Without(a + b, x) == Without(a, x) + Without(b, x)
    decreases |a|
  {
    if a == [] {
      assert a + b == b;
    } else {
      assert (a + b)[1..] == a[1..] + b;
      WithoutAppend(a[1..], b, x);
    }
  }

  /** Appending an element to the input appends it to the distinct
      elements exactly when it is new. */
  lemma {:induction false} DistinctFirstSnoc(xs: seq<string>, x: string)
    ensures DistinctFirst(xs + [x]) == if x in xs then DistinctFirst(xs) else DistinctFirst(xs) + [x]
    decreases |xs|
  {
    if xs == [] {
      assert [] + [x] == [x];
      assert Without([x][1..], x) == [];
    } else {
      var y, ys := xs[0], xs[1..];
      assert (xs + [x])[0] == y && (xs + [x])[1..] == ys + [x];
      WithoutAppend(ys, [x], y);
      assert [x][1..] == [];
      if x == y {
        assert Without([x], y) == [];
        assert Without(ys, y) + [] == Without(ys, y);
      } else {
        assert Without([x], y) == [x];
        DistinctFirstSnoc(Without(ys, y), x);
      }
    }
  }

  /** The texts listed under a label are the distinct texts of the entities
      with that label, in first-occurrence order; a label is present iff
      some entity has it. */
  lemma {:induction false} GroupedIsDistinctTexts(ents: seq<Entity>)
    ensures forall l :: l in Grouped(ents) <==> TextsOf(ents, l) != []
    ensures forall l :: l in Grouped(ents) ==> Grouped(ents)[l] == DistinctFirst(TextsOf(ents, l))
    decreases |ents|
  {
    if ents != [] {
      var init, e := ents[..|ents| - 1], ents[|ents| - 1];
      GroupedIsDistinctTexts(init);
      forall l
        ensures l in Grouped(ents) <==> TextsOf(ents, l) != []
        ensures l in Grouped(ents) ==> Grouped(ents)[l] == DistinctFirst(TextsOf(ents, l))
      {
        if l == e.kind {
          GroupedStepSame(ents, l);
        } else {
          GroupedStepOther(ents, l);
        }
      }
    }
  }

  /** The step for the label of the entity just added. */
  lemma GroupedStepSame(ents: seq<Entity>, l: string)
    requires ents != [] && ents[|ents| - 1].kind == l
    requires var init := ents[..|ents| - 1];
      && (l in Grouped(init) <==> TextsOf(init, l) != [])
      && (l in Grouped(init) ==> Grouped(init)[l] == DistinctFirst(TextsOf(init, l)))
    ensures l in Grouped(ents) && TextsOf(ents, l) != []
    ensures Grouped(ents)[l] == DistinctFirst(TextsOf(ents, l))
  {
    var init, e := ents[..|ents| - 1], ents[|ents| - 1];
    DistinctFirstSnoc(TextsOf(init, l), e.text);
    assert TextsOf(ents, l) == TextsOf(init, l) + [e.text];
    if l !in Grouped(init) {
      assert [] + [e.text] == [e.text];
    }
  }

  /** The step for every other label, which the new entity leaves alone. */
  lemma GroupedStepOther(ents: seq<Entity>, l: string)
    requires ents != [] && ents[|ents| - 1].kind != l
    requires var init := ents[..|ents| - 1];
      && (l in Grouped(init) <==> TextsOf(init, l) != [])
      && (l in Grouped(init) ==> Grouped(init)[l] == DistinctFirst(TextsOf(init, l)))
    ensures l in Grouped(ents) <==> TextsOf(ents, l) != []
    ensures l in Grouped(ents) ==> Grouped(ents)[l] == DistinctFirst(TextsOf(ents, l))
  {
    var init, e := ents[..|ents| - 1], ents[|ents| - 1];
    var g := Grouped(init);
    var cur := if e.kind in g then g[e.kind] else [];
    assert Grouped(ents) == g[e.kind := if e.text in cur then cur else cur + [e.text]];
    assert TextsOf(ents, l) == TextsOf(init, l) + [] == TextsOf(init, l);
    if l in Grouped(ents) {
      assert l in g && Grouped(ents)[l] == g[l];
    }
  }

  /** A text is among `TextsOf(ents, l)` iff the entity (l, text) occurs. */
  lemma {:induction false} TextsOfMembers(ents: seq<Entity>, l: string, x: string)
    ensures x in TextsOf(ents, l) <==> Entity(l, x) in ents
    decreases |ents|
  {
    if ents != [] {
      var init := ents[..|ents| - 1];
      TextsOfMembers(init, l, x);
      assert ents == init + [ents[|ents| - 1]];
    }
  }

  /** What the grouping holds: every recognised entity is listed under its
      label, nothing else is, and no text is listed twice. */
  lemma GroupedContents(ents: seq<Entity>, l: string, x: string)
    ensures var g := Grouped(ents);
      && (l in g && x in g[l] <==> Entity(l, x) in ents)
      && (l in g ==> NoDuplicates(g[l]) && g[l] != [])
  {
    GroupedIsDistinctTexts(ents);
    TextsOfMembers(ents, l, x);
  }

  // ---------------------------------------------------------------------------
  // _compute_long_context_consistency

  /** `max(0, i - window_size)`. */
  function Start(i: int, window: int): int {
    if i - window < 0 then 0 else i - window
  }

  /** The past context of sentence i: `" ".join(sentences[start:i])`, which
      is empty when the start lies past i. */
  function Context(sentences: seq<string>, i: nat, window: int): string
    requires i < |sentences|
  {
    JoinWith(sentences[Min(Start(i, window), i)..i], " ")
  }

  /** The pair loop of `_compute_long_context_consistency`. */
  method BuildPairs(sentences: seq<string>, window: int) returns (pairs: seq<(string, string)>)
    ensures |pairs| == if sentences == [] then 0 else |sentences| - 1
    ensures forall i :: 1 <= i < |sentences| ==> pairs[i - 1] == (Context(sentences, i, window), sentences[i])
  {
    if sentences == [] {
      return [];
    }
    pairs := [];
    var i := 1;
    while i < |sentences|
      invariant 1 <= i <= |sentences|
      invariant |pairs| == i - 1
      invariant forall j :: 1 <= j < i ==> pairs[j - 1] == (Context(sentences, j, window), sentences[j])
    {
      var startIdx := if 0 > i - window then 0 else i - window;
      var past := if startIdx <= i then JoinWith(sentences[startIdx..i], " ") else "";
      assert past == Context(sentences, i, window);
      pairs := pairs + [(past, sentences[i])];
      i := i + 1;
    }
  }

  /** The last part of a joined sequence ends the joined string. */
  lemma {:induction false} JoinWithLast(parts: seq<string>, sep: string)
    requires parts != []
    ensures var j := JoinWith(parts, sep); var last := parts[|parts| - 1];
      |last| <= |j| && j[|j| - |last|..] == last
    decreases |parts|
  {
    if |parts| > 1 {
      JoinWithLast(parts[1..], sep);
      assert parts[1..][|parts[1..]| - 1] == parts[|parts| - 1];
      var j := JoinWith(parts, sep);
      var rest := JoinWith(parts[1..], sep);
      assert j == parts[0] + sep + rest;
      assert j[|j| - |rest|..] == rest;
    }
  }

  /** The context of sentence i is the min(i, window) sentences right before
      it: everything before it once the window reaches back that far,
      nothing when the window is not positive, and otherwise a text that
      ends with the preceding sentence. */
  lemma ContextCovers(sentences: seq<string>, i: nat, window: int)
    requires 1 <= i < |sentences|
    ensures window >= 1 ==> Context(sentences, i, window) == JoinWith(sentences[i - Min(i, window)..i], " ")
    ensures window >= i ==> Context(sentences, i, window) == JoinWith(sentences[..i], " ")
    ensures window <= 0 ==> Context(sentences, i, window) == ""
    ensures window >= 1 ==> var c := Context(sentences, i, window);
      |sentences[i - 1]| <= |c| && c[|c| - |sentences[i - 1]|..] == sentences[i - 1]
  {
    if window >= 1 {
      var part := sentences[i - Min(i, window)..i];
      assert part[|part| - 1] == sentences[i - 1];
      JoinWithLast(part, " ");
    }
  }

  /** `np.clip(x, 0.0, 1.0)`. */
  function Clip01(x: real): (r: real)
    ensures 0.0 <= r <= 1.0
    ensures 0.0 <= x <= 1.0 ==> r == x
  {
    if x < 0.0 then 0.0 else if x > 1.0 then 1.0 else x
  }

  /** The score of sentence i against its context: one minus the
      contradiction probability, clipped to [0, 1]. */
  function PairScore(sentences: seq<string>, i: nat, window: int, nli: NliModel): real
    requires i < |sentences|
  {
    Clip01(1.0 - nli(Context(sentences, i, window), sentences[i]).contradiction)
  }

  /** `_compute_long_context_consistency`: one score per sentence after the
      first, 0.5 without a model, otherwise one minus the contradiction
      probability of (context, sentence), clipped to [0, 1]. */
  method LongContextConsistency(sentences: seq<string>, window: int, nli: Option<NliModel>)
    returns (similarities: seq<real>)
    ensures |sentences| < 2 ==> similarities == []
    ensures |sentences| >= 2 ==> |similarities| == |sentences| - 1
    ensures nli.None? ==> forall k :: 0 <= k < |similarities| ==> similarities[k] == 0.5
    ensures nli.Some? ==> forall k :: 0 <= k < |similarities| ==>
      similarities[k] == PairScore(sentences, k + 1, window, nli.value)
    ensures forall k :: 0 <= k < |similarities| ==> 0.0 <= similarities[k] <= 1.0
  {
    if |sentences| < 2 {
      return [];
    }
    if nli.None? {
      return seq(|sentences| - 1, _ => 0.5);
    }
    var pairs := BuildPairs(sentences, window);
    similarities := [];
    for k := 0 to |pairs|
      invariant |similarities| == k
      invariant forall j :: 0 <= j < k ==>
        similarities[j] == PairScore(sentences, j + 1, window, nli.value)
    {
      var probs := nli.value(pairs[k].0, pairs[k].1);
      similarities := similarities + [Clip01(1.0 - probs.contradiction)];
    }
  }

  // ---------------------------------------------------------------------------
  // analyze

  /** The window `analyze` uses. */
  const Window := 10

  datatype NarrativeResult = NarrativeResult(entities: map<string, seq<string>>, consistencyScore: real,
                                             pairwiseSimilarities: seq<real>)

  function Sum(xs: seq<real>): real
    decreases |xs|
  {
    if xs == [] then 0.0 else Sum(xs[..|xs| - 1]) + xs[|xs| - 1]
  }

  /** `np.mean`. */
  function Mean(xs: seq<real>): real
    requires xs != []
  {
    Sum(xs) / |xs| as real
  }

  predicate InUnit(xs: seq<real>) {
    forall k :: 0 <= k < |xs| ==> 0.0 <= xs[k] <= 1.0
  }

  lemma {:induction false} SumBounds(xs: seq<real>)
    requires InUnit(xs)
    ensures 0.0 <= Sum(xs) <= |xs| as real
    decreases |xs|
  {
    if xs != [] {
      SumBounds(xs[..|xs| - 1]);
    }
  }

  /** The mean of scores in [0, 1] lies in [0, 1], so the final clip of
      `analyze` never changes it. */
  lemma MeanInUnit(xs: seq<real>)
    requires xs != [] && InUnit(xs)
    ensures 0.0 <= Mean(xs) <= 1.0
    ensures Clip01(Mean(xs)) == Mean(xs)
  {
    SumBounds(xs);
    var n := |xs| as real;
    assert Mean(xs) * n == Sum(xs);
  }

  lemma {:induction false} SumConstant(xs: seq<real>, c: real)
    requires forall k :: 0 <= k < |xs| ==> xs[k] == c
    ensures Sum(xs) == |xs| as real * c
    decreases |xs|
  {
    if xs != [] {
      SumConstant(xs[..|xs| - 1], c);
    }
  }

  /** The mean of equal scores is that score. */
  lemma MeanConstant(xs: seq<real>, c: real)
    requires xs != [] && forall k :: 0 <= k < |xs| ==> xs[k] == c
    ensures Mean(xs) == c
  {
    SumConstant(xs, c);
  }

  /** The pairwise scores of `_compute_long_context_consistency`, stated
      sentence by sentence. */
  function Similarities(sentences: seq<string>, window: int, nli: Option<NliModel>): seq<real> {
    if |sentences| < 2 then []
    else if nli.None? then seq(|sentences| - 1, _ => 0.5)
    else seq(|sentences| - 1, k requires 0 <= k < |sentences| - 1 => PairScore(sentences, k + 1, window, nli.value))
  }

  /** The overall score `analyze` derives from the pairwise scores. */
  function Score(rolling: seq<real>): real {
    if rolling == [] then 1.0 else Clip01(Mean(rolling))
  }

  /** The result `analyze` returns for a text, the tokenizer's sentences and
      the recognised entities. */
  function Narrative(text: string, tokenized: Option<seq<string>>, ents: seq<Entity>, nli: Option<NliModel>): NarrativeResult {
    var sims := Similarities(SplitSentencesWith(NormalizeText(text), tokenized), Window, nli);
    NarrativeResult(Grouped(ents), Score(sims), sims)
  }

  /** `NarrativeConsistencyEngine.analyze`: `tokenized` is the tokenizer's
      answer for the normalised text and `ents` the entities recognised in
      it. */
  method Analyze(text: string, tokenized: Option<seq<string>>, ents: seq<Entity>, nli: Option<NliModel>)
    returns (r: NarrativeResult)
    ensures var sentences := SplitSentencesWith(NormalizeText(text), tokenized);
      var sims := r.pairwiseSimilarities;
      && r.entities == Grouped(ents)
      && |sims| == (if |sentences| < 2 then 0 else |sentences| - 1)
      && InUnit(sims)
      && (nli.None? ==> forall k :: 0 <= k < |sims| ==> sims[k] == 0.5)
      && (nli.Some? ==> forall k :: 0 <= k < |sims| ==>
            sims[k] == PairScore(sentences, k + 1, Window, nli.value))
      && (sims == [] ==> r.consistencyScore == 1.0)
      && (sims != [] ==> r.consistencyScore == Mean(sims))
      && 0.0 <= r.consistencyScore <= 1.0
    ensures r == Narrative(text, tokenized, ents, nli)
  {
    var normalized := NormalizeText(text);
    var sentences := SplitSentencesWith(normalized, tokenized);
    var entities := GroupEntities(ents);
    var rolling := LongContextConsistency(sentences, Window, nli);
    assert rolling == Similarities(sentences, Window, nli);
    var score := ConsistencyScore(rolling);
    if rolling != [] {
      MeanInUnit(rolling);
    }
    r := NarrativeResult(entities, score, rolling);
    assert r.pairwiseSimilarities == rolling && r.consistencyScore == score;
  }

  /** The overall score: the mean of the pairwise scores, 1.0 when there
      are none, clipped to [0, 1] (which leaves the mean unchanged). */
  method ConsistencyScore(rolling: seq<real>) returns (score: real)
    requires InUnit(rolling)
    ensures rolling == [] ==> score == 1.0
    ensures rolling != [] ==> score == Mean(rolling)
    ensures 0.0 <= score <= 1.0
  {
    var mean := if rolling != [] then Mean(rolling) else 1.0;
    if rolling != [] {
      MeanInUnit(rolling);
    }
    score := Clip01(mean);
  }

  /** Without a model, two or more sentences score 0.5 overall. */
  lemma NoModelScore(sims: seq<real>)
    requires sims != [] && forall k :: 0 <= k < |sims| ==> sims[k] == 0.5
    ensures Mean(sims) == 0.5
  {
    MeanConstant(sims, 0.5);
  }

  // ---------------------------------------------------------------------------
  // check_relevance

  datatype Relevance = Relevance(isOnTopic: bool, relevanceScore: real, suggestion: Option<string>)

  const NoTopicCheck := Relevance(true, 1.0, None)

  const NotLoaded := "NLI Model " + "not loaded."

  const OffTrack := "You're " + "getting a bit off-track. Stay focused on the script's goal."

  function DriftSuggestion(topic: string): string {
    "You " + "might be drifting away from your topic: '" + topic + "'. Try to bring it back to the main point."
  }

  /** `" ".join(sentences[-3:])`. */
  function Recent(sentences: seq<string>): string {
    JoinWith(sentences[|sentences| - Min(3, |sentences|)..], " ")
  }

  /** Entailment plus half of neutral. */
  function RelevanceScore(p: Probs): real {
    p.entailment + 0.5 * p.neutral
  }

  /** `check_relevance`: `tokenized` is the tokenizer's answer for the raw
      text. */
  function CheckRelevance(text: string, topic: Option<string>, tokenized: Option<seq<string>>,
                          nli: Option<NliModel>): Relevance
  {
    if topic.None? || topic.value == [] || AllIn(PySpace, text) then NoTopicCheck
    else
      var sentences := SplitSentencesWith(text, tokenized);
      if sentences == [] then NoTopicCheck
      else if nli.None? then Relevance(true, 0.5, Some(NotLoaded))
      else
        var score := RelevanceScore(nli.value(topic.value, Recent(sentences)));
        var onTopic := score > 0.4;
        Relevance(onTopic, score,
          if !onTopic then Some(DriftSuggestion(topic.value))
          else if score < 0.6 then Some(OffTrack)
          else None)
  }

  /** No topic, an empty topic or a blank text is on topic with score 1.
      Otherwise the text has sentences, so the no-sentences exit is never
      taken, and without a model the answer is on topic with score 0.5. */
  lemma RelevanceEarlyExits(text: string, topic: Option<string>, tokenized: Option<seq<string>>, nli: Option<NliModel>)
    ensures var early := topic.None? || topic.value == [] || AllIn(PySpace, text);
      var r := CheckRelevance(text, topic, tokenized, nli);
      && (early ==> r == NoTopicCheck)
      && (!early ==> SplitSentencesWith(text, tokenized) != [])
      && (!early && nli.None? ==> r == Relevance(true, 0.5, Some(NotLoaded)))
  {
    if !(topic.None? || topic.value == [] || AllIn(PySpace, text)) {
      SentencesOfNonBlank(text, tokenized);
    }
  }

  lemma SuggestionsDiffer(topic: string)
    ensures DriftSuggestion(topic) != OffTrack
    ensures Contains(DriftSuggestion(topic), topic)
  {
    assert DriftSuggestion(topic)[3] == ' ';
    assert OffTrack[3] == '\'';
    var head := "You " + "might be drifting away from your topic: '";
    assert DriftSuggestion(topic) == head + topic + "'. Try to bring it back to the main point.";
    assert DriftSuggestion(topic)[|head|..|head| + |topic|] == topic;
    ContainsAt(DriftSuggestion(topic), topic, |head|);
  }

  /** With a topic, a non-blank text and a model, the score is the
      entailment plus half the neutral probability of (topic, the last
      three sentences); the text is on topic iff the score exceeds 0.4; the
      drift suggestion, which names the topic, comes iff it is off topic,
      the off-track one iff the score is in (0.4, 0.6), and none iff the
      score is at least 0.6. For probabilities the score lies in [0, 1]. */
  lemma RelevanceVerdict(text: string, topic: string, tokenized: Option<seq<string>>, nli: NliModel)
    requires topic != [] && !AllIn(PySpace, text)
    ensures var p := nli(topic, Recent(SplitSentencesWith(text, tokenized)));
      var r := CheckRelevance(text, Some(topic), tokenized, Some(nli));
      var s := p.entailment + 0.5 * p.neutral;
      && r.relevanceScore == s
      && (r.isOnTopic <==> s > 0.4)
      && (r.suggestion == Some(DriftSuggestion(topic)) <==> s <= 0.4)
      && (r.suggestion == Some(OffTrack) <==> 0.4 < s < 0.6)
      && (r.suggestion == None <==> s >= 0.6)
      && (r.suggestion.Some? && !r.isOnTopic ==> Contains(r.suggestion.value, topic))
      && (ValidProbs(p) ==> 0.0 <= s <= 1.0)
  {
    SentencesOfNonBlank(text, tokenized);
    SuggestionsDiffer(topic);
  }

  /** The recent text is the last min(3, n) sentences and ends with the
      last one. */
  lemma RecentEndsWithLast(sentences: seq<string>)
    requires sentences != []
    ensures var r := Recent(sentences); var last := sentences[|sentences| - 1];
      |last| <= |r| && r[|r| - |last|..] == last
  {
    var part := sentences[|sentences| - Min(3, |sentences|)..];
    assert part[|part| - 1] == sentences[|sentences| - 1];
    JoinWithLast(part, " ");
  }
}
