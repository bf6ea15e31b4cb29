/** The structure and clarity engine: long sentences, spelling messages and
    the advice list. The readability score and the spelling checker are
    libraries: the score is a parameter, and the checker is its sentences'
    words (None when it raises, with the error's text) and its correction
    function. */
module StructureEngine {
  import opened Wrappers
  import opened Strings
  import opened TextUtils

  /** `_find_long_sentences`'s default threshold. */
  const LongThreshold := 30
  /** `_grammar_suggestions` stops at this many messages. */
  const MaxMessages := 10

  const ReadabilityAdvice := "Improve readability by using " + "shorter sentences and simpler words."
  const LooksGood := "Structure and clarity look good."

  datatype StructureResult = StructureResult(readabilityScore: real, longSentences: seq<string>, suggestions: seq<string>)

  // ---------------------------------------------------------------------------
  // _find_long_sentences

  /** `len(sentence.split()) > threshold`. */
  predicate IsLong(sentence: string, threshold: int) {
    |Words(PySpace, sentence)| > threshold
  }

  /** The long sentences, in order. */
  function LongOnes(sentences: seq<string>, threshold: int): (r: seq<string>)
    ensures |r| <= |sentences|
  {
    if sentences == [] then []
    else
      var last := sentences[|sentences| - 1];
      LongOnes(sentences[..|sentences| - 1], threshold) + (if IsLong(last, threshold) then [last] else [])
  }

  method FindLongSentences(sentences: seq<string>, threshold: int) returns (longOnes: seq<string>)
    ensures longOnes == LongOnes(sentences, threshold)
  {
    longOnes := [];
    for i := 0 to |sentences|
      invariant longOnes == LongOnes(sentences[..i], threshold)
    {
      assert sentences[..i + 1][..i] == sentences[..i];
      if |Words(PySpace, sentences[i])| > threshold {
        longOnes := longOnes + [sentences[i]];
      }
    }
    assert sentences[..|sentences|] == sentences;
  }

  /** Filtering a concatenation filters each part: the kept sentences stay
      in their original order. */
  lemma {:induction false} LongOnesAppend(a: seq<string>, b: seq<string>, threshold: int)
    ensures LongOnes(a + b, threshold) == LongOnes(a, threshold) + LongOnes(b, threshold)
    decreases |b|
  {
    if b == [] {
      assert a + b == a;
    } else {
      var b' := b[..|b| - 1];
      assert (a + b)[..|a + b| - 1] == a + b';
      LongOnesAppend(a, b', threshold);
    }
  }

  /** Exactly the sentences with more than `threshold` words are kept. */
  lemma {:induction false} LongOnesMembers(sentences: seq<string>, threshold: int)
    ensures forall x :: x in LongOnes(sentences, threshold) <==> x in sentences && IsLong(x, threshold)
    decreases |sentences|
  {
    if sentences != [] {
      var init := sentences[..|sentences| - 1];
      LongOnesMembers(init, threshold);
      assert sentences == init + [sentences[|sentences| - 1]];
    }
  }

  // ---------------------------------------------------------------------------
  // _grammar_suggestions

  function IssueMessage(word: string, corrected: string): string {
    "Possible spelling/grammar issue: '" + word + "'. Consider '" + corrected + "'."
  }

  function CheckerError(error: string): string {
    "Grammar checker encountered an issue: " + error
  }

  /** A word longer than two characters whose correction differs from it
      other than in case. */
  predicate Flagged(word: string, correct: string -> string) {
    |word| > 2 && Lower(word) != Lower(correct(word))
  }

  function WordFlags(words: seq<string>, correct: string -> string): seq<string> {
    if words == [] then []
    else
      var w := words[|words| - 1];
      WordFlags(words[..|words| - 1], correct) + (if Flagged(w, correct) then [IssueMessage(w, correct(w))] else [])
  }

  /** One message per flagged word, sentence by sentence. */
  function SentenceFlags(sentences: seq<seq<string>>, correct: string -> string): seq<string> {
    if sentences == [] then []
    else SentenceFlags(sentences[..|sentences| - 1], correct) + WordFlags(sentences[|sentences| - 1], correct)
  }

  /** What `_grammar_suggestions` returns: the first ten messages, or the
      error message when the checker raises. */
  function Grammar(blob: Option<seq<seq<string>>>, correct: string -> string, error: string): seq<string> {
    match blob
    case None => [CheckerError(error)]
    case Some(sentences) => Slice(SentenceFlags(sentences, correct), MaxMessages)
  }

  lemma {:induction false} WordFlagsAppend(a: seq<string>, b: seq<string>, correct: string -> string)
    ensures WordFlags(a + b, correct) == WordFlags(a, correct) + WordFlags(b, correct)
    decreases |b|
  {
    if b == [] {
      assert a + b == a;
    } else {
      var b' := b[..|b| - 1];
      assert (a + b)[..|a + b| - 1] == a + b';
      WordFlagsAppend(a, b', correct);
    }
  }

  lemma {:induction false} SentenceFlagsAppend(a: seq<seq<string>>, b: seq<seq<string>>, correct: string -> string)
    ensures SentenceFlags(a + b, correct) == SentenceFlags(a, correct) + SentenceFlags(b, correct)
    decreases |b|
  {
    if b == [] {
      assert a + b == a;
    } else {
      var b' := b[..|b| - 1];
      var ab := a + b;
      assert ab[..|ab| - 1] == a + b';
      assert ab[|ab| - 1] == b[|b| - 1];
      assert SentenceFlags(ab, correct) == SentenceFlags(a + b', correct) + WordFlags(b[|b| - 1], correct);
      assert SentenceFlags(b, correct) == SentenceFlags(b', correct) + WordFlags(b[|b| - 1], correct);
      SentenceFlagsAppend(a, b', correct);
    }
  }

  /** The messages collected up to word `w` of sentence `s` begin the
      messages of the whole text. */
  lemma FlagsPrefix(sentences: seq<seq<string>>, s: nat, w: nat, correct: string -> string)
    requires s < |sentences| && w <= |sentences[s]|
    ensures SentenceFlags(sentences[..s], correct) + WordFlags(sentences[s][..w], correct) <= SentenceFlags(sentences, correct)
  {
    var ws := sentences[s];
    assert ws == ws[..w] + ws[w..];
    WordFlagsAppend(ws[..w], ws[w..], correct);
    assert sentences == sentences[..s] + [ws] + sentences[s + 1..];
    SentenceFlagsAppend(sentences[..s] + [ws], sentences[s + 1..], correct);
    SentenceFlagsAppend(sentences[..s], [ws], correct);
    assert SentenceFlags([ws], correct) == SentenceFlags([], correct) + WordFlags(ws, correct);
  }

  /** The messages of the first w + 1 words: those of the first w, then
      the message of word w if it is flagged. */
  lemma WordFlagsStep(words: seq<string>, w: nat, correct: string -> string)
    requires w < |words|
    ensures WordFlags(words[..w + 1], correct) ==
      WordFlags(words[..w], correct) + (if Flagged(words[w], correct) then [IssueMessage(words[w], correct(words[w]))] else [])
  {
    assert words[..w + 1][..w] == words[..w];
  }

  /** Ten messages collected so far are the first ten of the whole text. */
  lemma StopAtMax(sentences: seq<seq<string>>, s: nat, w: nat, correct: string -> string, messages: seq<string>)
    requires s < |sentences| && w <= |sentences[s]|
    requires messages == SentenceFlags(sentences[..s], correct) + WordFlags(sentences[s][..w], correct)
    requires |messages| == MaxMessages
    ensures messages == Slice(SentenceFlags(sentences, correct), MaxMessages)
  {
    FlagsPrefix(sentences, s, w, correct);
  }

  /** The messages of the first s + 1 sentences: those of the first s, then
      those of sentence s. */
  lemma SentenceFlagsStep(sentences: seq<seq<string>>, s: nat, correct: string -> string)
    requires s < |sentences|
    ensures SentenceFlags(sentences[..s + 1], correct) ==
      SentenceFlags(sentences[..s], correct) + WordFlags(sentences[s][..|sentences[s]|], correct)
  {
    assert sentences[..s + 1][..s] == sentences[..s];
    assert sentences[s][..|sentences[s]|] == sentences[s];
  }

  method GrammarSuggestions(blob: Option<seq<seq<string>>>, correct: string -> string, error: string)
    returns (messages: seq<string>)
    ensures messages == Grammar(blob, correct, error)
  {
    if blob.None? {
      return [CheckerError(error)];
    }
    var sentences := blob.value;
    messages := [];
    for s := 0 to |sentences|
      invariant messages == SentenceFlags(sentences[..s], correct)
      invariant |messages| < MaxMessages
    {
      var words := sentences[s];
      for w := 0 to |words|
        invariant messages == SentenceFlags(sentences[..s], correct) + WordFlags(words[..w], correct)
        invariant |messages| < MaxMessages
      {
        WordFlagsStep(words, w, correct);
        var word := words[w];
        if |word| > 2 {
          var corrected := correct(word);
          if Lower(word) != Lower(corrected) {
            messages := messages + [IssueMessage(word, corrected)];
            if |messages| >= MaxMessages {
              StopAtMax(sentences, s, w + 1, correct, messages);
              return messages;
            }
          }
        }
      }
      SentenceFlagsStep(sentences, s, correct);
    }
    assert sentences[..|sentences|] == sentences;
  }

  /** At most ten messages; they are the first messages of the whole text,
      and all of them when there are fewer than ten; a raising checker gives
      exactly its error message. */
  lemma GrammarBound(blob: Option<seq<seq<string>>>, correct: string -> string, error: string)
    ensures var r := Grammar(blob, correct, error);
      && |r| <= MaxMessages
      && (blob.None? ==> r == [CheckerError(error)])
      && (blob.Some? ==> var all := SentenceFlags(blob.value, correct);
            r == all[..|r|] && (|all| < MaxMessages ==> r == all) && (|all| >= MaxMessages ==> |r| == MaxMessages))
  {
  }

  /** Every message names a flagged word of the text and its correction. */
  lemma {:induction false} WordFlagsSource(words: seq<string>, correct: string -> string)
    ensures forall m :: m in WordFlags(words, correct) ==>
      exists w :: w in words && Flagged(w, correct) && m == IssueMessage(w, correct(w))
    decreases |words|
  {
    if words != [] {
      var init := words[..|words| - 1];
      WordFlagsSource(init, correct);
      forall m | m in WordFlags(words, correct)
        ensures exists w :: w in words && Flagged(w, correct) && m == IssueMessage(w, correct(w))
      {
        if m in WordFlags(init, correct) {
          var w :| w in init && Flagged(w, correct) && m == IssueMessage(w, correct(w));
          assert w in words;
        } else {
          assert words[|words| - 1] in words;
        }
      }
    }
  }

  /** A word that is not flagged gives no message: text whose words all
      match their corrections gives none at all. */
  lemma {:induction false} NoFlagsNoMessages(sentences: seq<seq<string>>, correct: string -> string)
    requires forall s, w :: 0 <= s < |sentences| && w in sentences[s] ==> !Flagged(w, correct)
    ensures SentenceFlags(sentences, correct) == []
    decreases |sentences|
  {
    if sentences != [] {
      var last := sentences[|sentences| - 1];
      NoFlagsNoMessages(sentences[..|sentences| - 1], correct);
      WordsUnflagged(last, correct);
    }
  }

  lemma {:induction false} WordsUnflagged(words: seq<string>, correct: string -> string)
    requires forall w :: w in words ==> !Flagged(w, correct)
    ensures WordFlags(words, correct) == []
    decreases |words|
  {
    if words != [] {
      WordsUnflagged(words[..|words| - 1], correct);
      assert words[|words| - 1] in words;
    }
  }

  // ---------------------------------------------------------------------------
  // analyze

  function SplitAdvice(n: nat): string {
    "Split " + NatToString(n) + " long sentence(s) to improve clarity."
  }

  /** The suggestions list `analyze` builds from the grammar messages. */
  function Assemble(grammar: seq<string>, readability: real, longCount: nat): seq<string> {
    var withAdvice := grammar + (if readability < 50.0 then [ReadabilityAdvice] else [])
                              + (if longCount > 0 then [SplitAdvice(longCount)] else []);
    if withAdvice == [] then [LooksGood] else withAdvice
  }

  /** The advice `analyze` appends to the grammar messages, in place. */
  method AppendAdvice(grammar: seq<string>, readability: real, longCount: nat) returns (suggestions: seq<string>)
    ensures suggestions == Assemble(grammar, readability, longCount)
  {
    suggestions := grammar;
    if readability < 50.0 {
      suggestions := suggestions + [ReadabilityAdvice];
    }
    if longCount > 0 {
      suggestions := suggestions + [SplitAdvice(longCount)];
    }
    if suggestions == [] {
      suggestions := suggestions + [LooksGood];
    }
  }

  /** `analyze`. `tokenized` is the sentence tokenizer's answer for the
      normalised text, `readability` the readability score of the
      normalised text, and `blob`, `correct` and `error` the spelling
      checker's view of it. */
  method Analyze(text: string, tokenized: Option<seq<string>>, readability: real,
                 blob: Option<seq<seq<string>>>, correct: string -> string, error: string)
    returns (result: StructureResult)
    ensures result.readabilityScore == readability
    ensures result.longSentences == LongOnes(SplitSentencesWith(NormalizeText(text), tokenized), LongThreshold)
    ensures result.suggestions == Assemble(Grammar(blob, correct, error), readability, |result.longSentences|)
  {
    var normalized := NormalizeText(text);
    var sentences := SplitSentencesWith(normalized, tokenized);
    var longSentences := FindLongSentences(sentences, LongThreshold);
    var grammar := GrammarSuggestions(blob, correct, error);
    var suggestions := AppendAdvice(grammar, readability, |longSentences|);
    result := StructureResult(readability, longSentences, suggestions);
  }

  /** The three advice lines differ from one another. */
  lemma AdviceDistinct(n: nat)
    ensures ReadabilityAdvice != LooksGood
    ensures SplitAdvice(n) != ReadabilityAdvice && SplitAdvice(n) != LooksGood
  {
    ReadabilityHead();
    LooksGoodHead();
    assert SplitAdvice(n)[1] == 'p';
  }

  lemma ReadabilityHead()
    ensures ReadabilityAdvice[1] == 'm'
  {
    assert "Improve readability by using " == "Im" + "prove readability by using ";
  }

  lemma LooksGoodHead()
    ensures LooksGood[1] == 't'
  {
    assert LooksGood == "St" + "ructure and clarity look good.";
  }

  /** The grammar messages come first and unchanged; after them the
      readability advice appears iff the score is below 50, the split advice
      with the count iff there are long sentences, and "looks good" iff
      nothing else was added: the list is never empty. */
  lemma AssembleMeaning(grammar: seq<string>, readability: real, longCount: nat)
    ensures Assemble(grammar, readability, longCount) != []
    ensures |grammar| <= |Assemble(grammar, readability, longCount)|
    ensures Assemble(grammar, readability, longCount)[..|grammar|] == grammar
    ensures ReadabilityAdvice in Assemble(grammar, readability, longCount)[|grammar|..] <==> readability < 50.0
    ensures SplitAdvice(longCount) in Assemble(grammar, readability, longCount)[|grammar|..] <==> longCount > 0
    ensures LooksGood in Assemble(grammar, readability, longCount)[|grammar|..] <==>
      grammar == [] && readability >= 50.0 && longCount == 0
    ensures |Assemble(grammar, readability, longCount)| <= |grammar| + 2
  {
    AdviceDistinct(longCount);
    var r := Assemble(grammar, readability, longCount);
    var a := if readability < 50.0 then [ReadabilityAdvice] else [];
    var b := if longCount > 0 then [SplitAdvice(longCount)] else [];
    if grammar + a + b != [] {
      assert r == grammar + (a + b);
      assert r[|grammar|..] == a + b;
    } else {
      assert r[|grammar|..] == [LooksGood];
    }
  }
}
