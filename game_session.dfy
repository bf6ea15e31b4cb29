/** The play screen of one mini-game: answer checking against the game
    backend, progress, hearts, hints and prompt loading. Server replies and
    the fallback prompt picked at random are parameters of the handlers; a
    handler runs to completion, from the click to the end of its request. */
module GameSession {
  import opened Wrappers
  import opened Strings

  // ---------------------------------------------------------------------------
  // Backend names

  /** `getBackendName`: the display name the backend knows a game by. */
  function GetBackendName(id: string): string {
    match id
    case "redundancy" => "Redundancy Eraser"
    case "sentence-builder" => "Sentence Builder"
    case "reconstructor" => "Sentence Reconstructor"
    case "plot-hole" => "Plot Hole Hunter"
    case "tone-switcher" => "Tone Switcher"
    case "word-choice" => "Word Choice Duel"
    case "dialogue-detective" => "Dialogue Detective"
    case "context-climber" => "Context Climber"
    case _ => id
  }

  const RouteIds: set<string> := {"redundancy", "sentence-builder", "reconstructor", "plot-hole",
    "tone-switcher", "word-choice", "dialogue-detective", "context-climber"}

  /** Exactly the eight listed ids are renamed; every other id, "word-master"
      included, is passed through. */
  lemma BackendNameRenames(id: string)
    ensures id in RouteIds <==> GetBackendName(id) != id
    ensures id !in RouteIds ==> GetBackendName(id) == id
  {
  }

  lemma WordMasterPassesThrough(id: string)
    requires id == "word-master"
    ensures GetBackendName(id) == id
  {
    BackendNameRenames(id);
  }

  /** The lookup as written indexes an object literal, so an id naming a
      member every object inherits from Object.prototype yields that member
      (a function, or the prototype object itself for `__proto__`), not the
      id. */
  datatype NameLookup = Name(name: string) | InheritedMember(member: string)

  /** The names Object.prototype supplies to every object literal. */
  const PrototypeMembers: set<string> := {"constructor", "toString", "valueOf", "hasOwnProperty",
    "isPrototypeOf", "propertyIsEnumerable", "toLocaleString", "__proto__",
    "__defineGetter__", "__defineSetter__", "__lookupGetter__", "__lookupSetter__"}

  function BackendNameAsWritten(id: string): NameLookup {
    if id in RouteIds then Name(GetBackendName(id))
    else if id in PrototypeMembers then InheritedMember(id)
    else Name(id)
  }

  /** The `game_type` string the `/game/prompt` request body carries once
      serialised to JSON: a function-valued field is dropped and the
      prototype object becomes `{}`, so an inherited member carries none,
      and the backend's request model then refuses the request. */
  function PromptGameType(l: NameLookup): Option<string> {
    match l
    case Name(n) => Some(n)
    case InheritedMember(_) => None
  }

  /** The route id "toString" comes back as Object.prototype.toString as
      written, so the prompt request carries no game type and fails, and
      with no static prompts for that id the page leaves for the home
      screen; the corrected lookup sends the id itself. */
  lemma ToStringIdAsWritten(id: string, s: Session, fallback: string)
    requires id == "toString"
    ensures BackendNameAsWritten(id) == InheritedMember(id)
    ensures PromptGameType(BackendNameAsWritten(id)).None?
    ensures LoadNextPrompt(s, id, None, fallback).screen == Home
    ensures GetBackendName(id) == id && PromptGameType(Name(GetBackendName(id))) == Some(id)
  {
    BackendNameRenames(id);
  }

  /** Outside those inherited member names, the two agree. */
  lemma BackendNameAgrees(id: string)
    requires id !in PrototypeMembers
    ensures BackendNameAsWritten(id) == Name(GetBackendName(id))
    ensures PromptGameType(BackendNameAsWritten(id)) == Some(GetBackendName(id))
  {
  }

  /** The game ids with a static prompt table to fall back on. */
  const FallbackIds: set<string> := RouteIds + {"word-master"}

  // ---------------------------------------------------------------------------
  // State

  datatype Feedback = Feedback(success: bool, reason: string, earned: int, mastery: real, score: Option<int>)

  /** The fields of `/game/verify`'s reply that the page reads. */
  datatype Reply = Reply(
    success: bool,
    reason: string,
    xpReward: int,
    masteryLevel: Option<real>,
    score: Option<int>,
    currentHearts: int)

  /** A fetched prompt and its hint. */
  datatype Fetched = Fetched(prompt: string, hint: Option<string>)

  datatype Screen = Playing | GamesHub | Home

  datatype Session = Session(
    progress: int,
    hearts: int,
    prompt: Option<string>,
    hint: Option<string>,
    showHint: bool,
    hintUsed: bool,
    input: string,
    submitting: bool,
    feedback: Option<Feedback>,
    gameOver: bool,
    screen: Screen)

  const ServerErrorReason := "Server Error. Is the backend running?"
  const ProgressStep := 20
  const ProgressGoal := 100

  function Initial(): Session {
    Session(0, 5, None, None, false, false, "", false, None, false, Playing)
  }

  predicate Blank(s: string) {
    AllIn(JsSpace, s)
  }

  /** Progress is a percentage. */
  predicate Valid(s: Session) {
    0 <= s.progress <= ProgressGoal
  }

  /** `Math.round`: halves go up. */
  function Round(x: real): int {
    (x + 0.5).Floor
  }

  function MinInt(a: int, b: int): int {
    if a <= b then a else b
  }

  // ---------------------------------------------------------------------------
  // Transitions

  /** `loadNextPrompt`: everything about the previous prompt is cleared first;
      then the fetched prompt and hint are shown, or on a failed fetch a
      static prompt of the game, or the page leaves for the home screen when
      the game id has no static prompts. */
  function LoadNextPrompt(s: Session, gameId: string, fetched: Option<Fetched>, fallback: string): (s': Session)
    ensures s'.feedback.None? && s'.input == [] && !s'.showHint && !s'.hintUsed
    ensures s'.progress == s.progress && s'.hearts == s.hearts && s'.gameOver == s.gameOver
    ensures s'.submitting == s.submitting
  {
    var cleared := s.(feedback := None, input := "", prompt := None, hint := None, showHint := false, hintUsed := false);
    match fetched
    case Some(f) => cleared.(prompt := Some(f.prompt), hint := f.hint)
    case None =>
      if gameId in FallbackIds then cleared.(prompt := Some(fallback))
      else cleared.(screen := Home)
  }

  function FeedbackOf(r: Reply): Feedback {
    var mastery := r.masteryLevel.GetOr(0.0);
    var score := if r.score.Some? && r.score.value != 0 then r.score.value else Round(mastery * 100.0);
    Feedback(r.success, r.reason, r.xpReward, mastery, Some(score))
  }

  /** `handleCheck` from the click to the end of the request; `reply` is None
      when the request fails. */
  function Check(s: Session, reply: Option<Reply>): Session {
    if Blank(s.input) then s
    else
      match reply
      case None =>
        s.(feedback := Some(Feedback(false, ServerErrorReason, 0, 0.0, None)), submitting := false)
      case Some(r) =>
        var s1 := s.(feedback := Some(FeedbackOf(r)), hearts := r.currentHearts, submitting := false);
        if r.success then s1.(progress := MinInt(s.progress + ProgressStep, ProgressGoal))
        else if r.currentHearts <= 0 then s1.(gameOver := true)
        else s1
  }

  /** `handleNext`. */
  function Next(s: Session, gameId: string, fetched: Option<Fetched>, fallback: string): Session {
    if s.progress >= ProgressGoal then s.(screen := GamesHub)
    else if !s.gameOver then LoadNextPrompt(s, gameId, fetched, fallback)
    else s
  }

  /** `handleRefill`: the hearts the server reports, game over cleared, a new
      prompt. `hearts` is None when the refill request fails: the handler
      has no `catch`, so nothing after the await runs. */
  function Refill(s: Session, hearts: Option<int>, gameId: string, fetched: Option<Fetched>, fallback: string): Session {
    match hearts
    case None => s
    case Some(h) => LoadNextPrompt(s.(hearts := h, gameOver := false), gameId, fetched, fallback)
  }

  /** The mount effect: the hearts from `/user/stats` when that request
      succeeds (None when it fails, which the effect ignores), then a
      prompt load. */
  function Mount(s: Session, gameId: string, stats: Option<int>, fetched: Option<Fetched>, fallback: string): Session {
    var s1 := if stats.Some? then s.(hearts := stats.value) else s;
    LoadNextPrompt(s1, gameId, fetched, fallback)
  }

  /** The hint button: hides a shown hint, otherwise asks for confirmation. */
  function ToggleHint(s: Session): Session {
    if s.showHint then s.(showHint := false) else s
  }

  /** Confirming the hint shows it and marks it used. */
  function ConfirmHint(s: Session): Session {
    s.(showHint := true, hintUsed := true)
  }

  /** The Check button is enabled. */
  predicate CheckEnabled(s: Session) {
    !Blank(s.input) && s.feedback.None? && !s.submitting && !s.gameOver
  }

  // ---------------------------------------------------------------------------
  // Properties

  /** A blank answer sends nothing and changes nothing. */
  lemma BlankCheckIsNoop(s: Session, reply: Option<Reply>)
    requires Blank(s.input)
    ensures Check(s, reply) == s
  {
  }

  /** A correct answer moves progress 20 points towards 100 and never past it;
      anything else leaves progress alone. Hearts always come from the reply,
      and a failed request keeps them. */
  lemma CheckProgress(s: Session, reply: Option<Reply>)
    requires Valid(s) && !Blank(s.input)
    ensures var s' := Check(s, reply);
      && Valid(s')
      && (reply.Some? && reply.value.success ==> s'.progress == MinInt(s.progress + 20, 100) >= s.progress)
      && (reply.None? || !reply.value.success ==> s'.progress == s.progress)
      && (reply.Some? ==> s'.hearts == reply.value.currentHearts)
      && (reply.None? ==> s'.hearts == s.hearts && s'.feedback == Some(Feedback(false, ServerErrorReason, 0, 0.0, None)))
      && s'.feedback.Some? && !s'.submitting
  {
  }

  /** A check ends the game iff the answer was wrong and no hearts are left;
      a check never revives an ended game. */
  lemma CheckGameOver(s: Session, reply: Option<Reply>)
    requires !Blank(s.input)
    ensures Check(s, reply).gameOver
      <==> s.gameOver || (reply.Some? && !reply.value.success && reply.value.currentHearts <= 0)
  {
  }

  /** After an answer is checked the Check button stays disabled until the
      next prompt clears the feedback. */
  lemma CheckDisablesCheck(s: Session, reply: Option<Reply>)
    requires !Blank(s.input)
    ensures !CheckEnabled(Check(s, reply))
  {
  }

  /** handleNext leaves for the games hub at full progress, loads a new
      prompt while the game is on, and does nothing once it is over. */
  lemma NextCases(s: Session, gameId: string, fetched: Option<Fetched>, fallback: string)
    ensures var s' := Next(s, gameId, fetched, fallback);
      && (s.progress >= 100 ==> s'.screen == GamesHub && s'.prompt == s.prompt)
      && (s.progress < 100 && !s.gameOver ==> s'.feedback.None? && s'.input == [] && !s'.hintUsed)
      && (s.progress < 100 && s.gameOver ==> s' == s)
  {
  }

  /** A successful refill always reopens the game with the server's hearts
      and a fresh prompt state; a failed one changes nothing, so an ended
      game stays ended. */
  lemma RefillReopens(s: Session, hearts: Option<int>, gameId: string, fetched: Option<Fetched>, fallback: string)
    ensures var s' := Refill(s, hearts, gameId, fetched, fallback);
      && (hearts.Some? ==> !s'.gameOver && s'.hearts == hearts.value && s'.progress == s.progress
                           && s'.feedback.None? && !s'.hintUsed)
      && (hearts.None? ==> s' == s)
  {
  }

  /** Mounting takes the stored hearts when the stats request succeeds and
      keeps the current ones when it fails, and always loads a prompt with
      the feedback, answer and hint penalty cleared. */
  lemma MountCases(s: Session, gameId: string, stats: Option<int>, fetched: Option<Fetched>, fallback: string)
    ensures var s' := Mount(s, gameId, stats, fetched, fallback);
      && s'.hearts == (if stats.Some? then stats.value else s.hearts)
      && s'.progress == s.progress && s'.gameOver == s.gameOver
      && s'.feedback.None? && s'.input == [] && !s'.hintUsed
      && (fetched.Some? ==> s'.prompt == Some(fetched.value.prompt))
  {
  }

  /** Hiding a shown hint does not lift the penalty: only a new prompt resets
      hintUsed. */
  lemma HintPenaltySticks(s: Session)
    requires s.hintUsed
    ensures ToggleHint(s).hintUsed && ConfirmHint(s).hintUsed
  {
  }

  /** The user's actions on the page. */
  datatype Event =
    | Type(text: string)
    | CheckAnswer(reply: Option<Reply>)
    | NextPrompt(fetched: Option<Fetched>, fallback: string)
    | RefillHearts(hearts: Option<int>, fetched: Option<Fetched>, fallback: string)
    | HintButton
    | HintConfirm

  function Step(s: Session, gameId: string, e: Event): Session {
    match e
    case Type(text) => s.(input := text)
    case CheckAnswer(reply) => Check(s, reply)
    case NextPrompt(fetched, fallback) => Next(s, gameId, fetched, fallback)
    case RefillHearts(hearts, fetched, fallback) => Refill(s, hearts, gameId, fetched, fallback)
    case HintButton => ToggleHint(s)
    case HintConfirm => ConfirmHint(s)
  }

  function Run(s: Session, gameId: string, events: seq<Event>): Session
    decreases |events|
  {
    if events == [] then s else Run(Step(s, gameId, events[0]), gameId, events[1..])
  }

  /** Over any sequence of actions, progress stays in [0, 100] and never
      goes down. */
  lemma {:induction false} RunProgress(s: Session, gameId: string, events: seq<Event>)
    requires Valid(s)
    ensures Valid(Run(s, gameId, events))
    ensures Run(s, gameId, events).progress >= s.progress
    decreases |events|
  {
    if events != [] {
      var s1 := Step(s, gameId, events[0]);
      if events[0].CheckAnswer? && !Blank(s.input) {
        CheckProgress(s, events[0].reply);
      }
      RunProgress(s1, gameId, events[1..]);
    }
  }

  lemma InitialValid()
    ensures Valid(Initial()) && Initial().hearts == 5 && !Initial().gameOver
  {
  }

  // ---------------------------------------------------------------------------
  // The page

  class GameSessionPage {
    const gameId: string
    var progress: int
    var hearts: int
    var prompt: Option<string>
    var hint: Option<string>
    var showHint: bool
    var hintUsed: bool
    var input: string
    var submitting: bool
    var feedback: Option<Feedback>
    var gameOver: bool
    var screen: Screen

    function State(): Session
      reads this
    {
      Session(progress, hearts, prompt, hint, showHint, hintUsed, input, submitting, feedback, gameOver, screen)
    }

    method SetState(s: Session)
      modifies this
      ensures State() == s
    {
      progress, hearts, prompt, hint, showHint, hintUsed := s.progress, s.hearts, s.prompt, s.hint, s.showHint, s.hintUsed;
      input, submitting, feedback, gameOver, screen := s.input, s.submitting, s.feedback, s.gameOver, s.screen;
    }

    constructor(id: string)
      ensures gameId == id && State() == Initial()
    {
      gameId := id;
      progress, hearts, prompt, hint, showHint, hintUsed := 0, 5, None, None, false, false;
      input, submitting, feedback, gameOver, screen := "", false, None, false, Playing;
    }

    method LoadNext(fetched: Option<Fetched>, fallback: string)
      modifies this
      ensures State() == LoadNextPrompt(old(State()), gameId, fetched, fallback)
    {
      feedback := None;
      input := "";
      prompt := None;
      hint := None;
      showHint := false;
      hintUsed := false;
      match fetched {
        case Some(f) =>
          prompt := Some(f.prompt);
          hint := f.hint;
        case None =>
          if gameId in FallbackIds {
            prompt := Some(fallback);
          } else {
            screen := Home;
          }
      }
    }

    method HandleCheck(reply: Option<Reply>)
      modifies this
      ensures State() == Check(old(State()), reply)
    {
      if Blank(input) {
        return;
      }
      submitting := true;
      match reply {
        case Some(r) =>
          feedback := Some(FeedbackOf(r));
          hearts := r.currentHearts;
          if r.success {
            progress := MinInt(progress + ProgressStep, ProgressGoal);
          } else if r.currentHearts <= 0 {
            gameOver := true;
          }
        case None =>
          feedback := Some(Feedback(false, ServerErrorReason, 0, 0.0, None));
      }
      submitting := false;
    }

    method HandleNext(fetched: Option<Fetched>, fallback: string)
      modifies this
      ensures State() == Next(old(State()), gameId, fetched, fallback)
    {
      if progress >= ProgressGoal {
        screen := GamesHub;
      } else if !gameOver {
        LoadNext(fetched, fallback);
      }
    }

    /** The mount effect, run when the page opens or its game changes. */
    method Init(stats: Option<int>, fetched: Option<Fetched>, fallback: string)
      modifies this
      ensures State() == Mount(old(State()), gameId, stats, fetched, fallback)
    {
      if stats.Some? {
        hearts := stats.value;
      }
      LoadNext(fetched, fallback);
    }

    method HandleRefill(serverHearts: Option<int>, fetched: Option<Fetched>, fallback: string)
      modifies this
      ensures State() == Refill(old(State()), serverHearts, gameId, fetched, fallback)
    {
      if serverHearts.None? {
        return;
      }
      hearts := serverHearts.value;
      gameOver := false;
      LoadNext(fetched, fallback);
    }

    method HandleHintButton()
      modifies this
      ensures State() == ToggleHint(old(State()))
    {
      if showHint {
        showHint := false;
      }
    }

    method HandleHintConfirm()
      modifies this
      ensures State() == ConfirmHint(old(State()))
    {
      showHint := true;
      hintUsed := true;
    }
  }
}
