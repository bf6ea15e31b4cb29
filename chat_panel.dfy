/** The dashboard's AI chat panel: the quick typo count and quality score
    shown for the draft, and the message list a send appends to. The chat
    server's reply is a parameter (None when the request fails); message ids
    are parameters too. */
module ChatPanel {
  import opened Wrappers
  import opened Strings

  // ---------------------------------------------------------------------------
  // Typo count and quality score

  /** The ten words the panel counts as typos. */
  predicate InDictionary(w: string) {
    w in {"todays", "peoples", "oppurtunities", "goverments", "effect", "dont", "spends", "then", "create", "medias"}
  }

  predicate KeptChar(c: char) {
    'a' <= c <= 'z' || c == '\''
  }

  /** `.replace(/[^a-z']/g, '')`: a word made only of kept characters
      comes back whole. */
  function KeepLetters(w: string): (r: string)
    ensures |r| <= |w|
    ensures forall i :: 0 <= i < |r| ==> KeptChar(r[i])
    ensures forall c :: c in r ==> c in w
    ensures (forall i :: 0 <= i < |w| ==> KeptChar(w[i])) ==> r == w
  {
    if w == [] then []
    else (if KeptChar(w[0]) then [w[0]] else []) + KeepLetters(w[1..])
  }

  /** Removing characters works piece by piece. */
  lemma {:induction false} KeepLettersAppend(a: string, b: string)
    ensures KeepLetters(a + b) == KeepLetters(a) + KeepLetters(b)
  {
    if a == [] {
      assert a + b == b;
    } else {
      assert (a + b)[0] == a[0];
      assert (a + b)[1..] == a[1..] + b;
      KeepLettersAppend(a[1..], b);
    }
  }

  /** One character is kept exactly when it is a lower-case letter or an
      apostrophe. */
  lemma KeepLettersChar(c: char)
    ensures KeepLetters([c]) == if KeptChar(c) then [c] else []
  {
    assert [c][1..] == [];
  }

  /** The cleaned form of one piece of the draft. */
  function Cleaned(w: string): string {
    KeepLetters(Lower(w))
  }

  /** Pieces whose cleaned form is a dictionary word. */
  function CountTypos(ws: seq<string>): (n: nat)
    ensures n <= |ws|
  {
    if ws == [] then 0
    else CountTypos(ws[..|ws| - 1]) + (if InDictionary(Cleaned(ws[|ws| - 1])) then 1 else 0)
  }

  /** `typoCount`: 0 for a blank draft, else the count over
      `text.split(/\s+/)`. */
  function TypoCount(text: string): nat {
    if Trim(JsSpace, text) == [] then 0
    else CountTypos(Pieces(JsSpace, text))
  }

  /** `Math.max(35, 100 - typoCount * 7)`. */
  function QualityScore(typos: nat): (score: int)
    ensures 35 <= score <= 100
    ensures typos == 0 ==> score == 100
    ensures typos >= 10 ==> score == 35
  {
    var raw := 100 - typos * 7;
    if raw >= 35 then raw else 35
  }

  /** More typos never raise the score. */
  lemma QualityMonotone(a: nat, b: nat)
    requires a <= b
    ensures QualityScore(b) <= QualityScore(a)
  {
  }

  /** A blank draft has no typos and a perfect score. */
  lemma BlankDraftScores(text: string)
    requires AllIn(JsSpace, text)
    ensures TypoCount(text) == 0 && QualityScore(TypoCount(text)) == 100
  {
    TrimProps(JsSpace, text);
  }

  /** Counting is additive over pieces. */
  lemma {:induction false} CountTyposAppend(a: seq<string>, b: seq<string>)
    ensures CountTypos(a + b) == CountTypos(a) + CountTypos(b)
    decreases |b|
  {
    if b == [] {
      assert a + b == a;
    } else {
      var b' := b[..|b| - 1];
      assert (a + b)[..|a + b| - 1] == a + b';
      assert (a + b)[|a + b| - 1] == b[|b| - 1];
      CountTyposAppend(a, b');
    }
  }

  /** A piece counts iff its cleaned form is one of the ten words; an
      apostrophe is kept, so "don't" is not "dont". */
  lemma CountOne(w: string)
    ensures CountTypos([w]) == if InDictionary(Cleaned(w)) then 1 else 0
  {
    assert [w][..0] == [];
  }

  /** A word already in lower case and made of kept characters cleans to
      itself. */
  lemma CleanedKeeps(w: string)
    requires forall i :: 0 <= i < |w| ==> KeptChar(w[i])
    ensures Cleaned(w) == w
  {
    assert Lower(w) == w by {
      forall i | 0 <= i < |w| ensures Lower(w)[i] == w[i] {
        assert KeptChar(w[i]);
      }
    }
  }

  /** The apostrophe survives cleaning, so "don't" is not counted. */
  lemma ApostropheKept()
    ensures Cleaned("don't") == "don't" && !InDictionary(Cleaned("don't"))
  {
    CleanedKeeps("don't");
  }

  /** Capitals are lowered, so "Dont" counts as "dont". */
  lemma CapitalLowered()
    ensures Cleaned("Dont") == "dont" && InDictionary(Cleaned("Dont"))
  {
    var d := "Dont";
    assert Lower(d) == "dont" by {
      assert Lower(d)[0] == LowerChar('D') == 'd';
      forall i | 1 <= i < 4 ensures Lower(d)[i] == d[i] {
        assert KeptChar(d[i]);
      }
    }
    CleanedKeeps("dont");
  }

  /** Punctuation is dropped, so "then," counts as "then". */
  lemma PunctuationDropped()
    ensures Cleaned("then,") == "then" && InDictionary(Cleaned("then,"))
  {
    var w := "then,";
    assert w == "then" + ",";
    CleanedKeeps("then");
    LowerAppend("then", ",");
    KeepLettersAppend(Lower("then"), Lower(","));
    assert Lower(",") == [','] by {
      assert Lower(",")[0] == LowerChar(',');
    }
    KeepLettersChar(',');
  }

  // ---------------------------------------------------------------------------
  // Messages

  datatype Role = User | Assistant

  datatype Message = Message(id: string, role: Role, content: string)

  /** The chat server's reply. */
  datatype ChatReply = ChatReply(reply: string, modifiedText: string)

  const UpdatedPrefix := "I've updated the text for you!\n\n"
  const UnavailableText := "Sorry, the server is unavailable. Please try again."
  const WelcomeText := "I can help improve grammar, clarity, and tone. Ask me to rewrite any sentence."

  /** The assistant's message for a reply, or for a failed request. */
  function AssistantText(reply: Option<ChatReply>): string {
    match reply
    case None => UnavailableText
    case Some(r) => if r.modifiedText != [] then UpdatedPrefix + r.reply else r.reply
  }

  /** The draft replacement handed to onTextUpdate: only a non-empty
      modified text. */
  function TextUpdate(reply: Option<ChatReply>): (u: Option<string>)
    ensures u.Some? <==> reply.Some? && reply.value.modifiedText != []
    ensures u.Some? ==> u.value == reply.value.modifiedText
  {
    if reply.Some? && reply.value.modifiedText != [] then Some(reply.value.modifiedText) else None
  }

  /** What the panel holds: the message list, the input box, and whether a
      send is in flight. */
  datatype PanelState = PanelState(messages: seq<Message>, input: string, sending: bool)

  /** `sendMessage` as one step from the state before the send to the state
      after the reply (or the failure) has been handled, paired with what
      onTextUpdate receives. */
  function Sent(st: PanelState, reply: Option<ChatReply>, userId: string, assistantId: string)
    : (PanelState, Option<string>)
  {
    var trimmed := Trim(JsSpace, st.input);
    if trimmed == [] || st.sending then (st, None)
    else
      (PanelState(st.messages + [Message(userId, User, trimmed), Message(assistantId, Assistant, AssistantText(reply))], [], false),
       TextUpdate(reply))
  }

  /** A blank input or a send in flight changes nothing; otherwise exactly
      two messages are appended, the user's (the trimmed, never blank input)
      and then the assistant's (the reply, prefixed by the update notice
      when it carries a modified text, or the unavailable text when the
      request failed), the input is cleared and the panel is ready
      again; the draft is replaced only by a non-empty modified text. */
  lemma SendCases(st: PanelState, reply: Option<ChatReply>, userId: string, assistantId: string)
    ensures var (st', update) := Sent(st, reply, userId, assistantId);
      && (AllIn(JsSpace, st.input) || st.sending ==> st' == st && update.None?)
      && (!AllIn(JsSpace, st.input) && !st.sending ==>
            && |st'.messages| == |st.messages| + 2
            && st'.messages[..|st.messages|] == st.messages
            && st'.messages[|st.messages|] == Message(userId, User, Trim(JsSpace, st.input))
            && IsTrimmed(JsSpace, st'.messages[|st.messages|].content)
            && st'.messages[|st.messages|].content != []
            && st'.messages[|st.messages| + 1].id == assistantId
            && st'.messages[|st.messages| + 1].role == Assistant
            && (reply.None? ==> st'.messages[|st.messages| + 1].content == UnavailableText)
            && (reply.Some? ==>
                  st'.messages[|st.messages| + 1].content ==
                  (if reply.value.modifiedText != [] then UpdatedPrefix + reply.value.reply else reply.value.reply))
            && st'.input == [] && !st'.sending
            && (update.Some? <==> reply.Some? && reply.value.modifiedText != [])
            && (update.Some? ==> update.value == reply.value.modifiedText))
  {
    TrimProps(JsSpace, st.input);
  }

  class Panel {
    var messages: seq<Message>
    var input: string
    var sending: bool

    function State(): PanelState
      reads this
    {
      PanelState(messages, input, sending)
    }

    constructor()
      ensures State() == PanelState([Message("welcome", Assistant, WelcomeText)], "", false)
    {
      messages := [Message("welcome", Assistant, WelcomeText)];
      input := "";
      sending := false;
    }

    /** `sendMessage`, with the reply handled before the panel is used
        again; `update` is what onTextUpdate receives. */
    method SendMessage(reply: Option<ChatReply>, userId: string, assistantId: string)
      returns (update: Option<string>)
      modifies this
      ensures (State(), update) == Sent(old(State()), reply, userId, assistantId)
    {
      var (st, u) := Sent(State(), reply, userId, assistantId);
      messages, input, sending := st.messages, st.input, st.sending;
      update := u;
    }
  }
}
