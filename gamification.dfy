/** The game backend's in-memory progress engine: one record per user id with
    XP, level, hearts, daily and win streaks, play counters and five skill
    scores, and the leaderboard built from those records and ten fixed rivals.

    Dates are day numbers (`now` stands for `datetime.now()`), and the float
    arithmetic of the XP award is done on `real` with Python's `int()`
    truncation written out. */
module Gamification {

  datatype Skill = Grammar | Vocabulary | ToneAndStyle | Concision | Comprehension

  datatype UserRecord = UserRecord(
    xp: int,
    level: int,
    streak: int,
    winStreak: int,
    hearts: int,
    gamesPlayed: int,
    gamesWon: int,
    lastActive: int,
    skills: map<Skill, int>)

  const MaxHearts := 5
  const XpPerLevel := 500
  const WinThreshold: real := 0.8
  const SkillCap := 100

  /** The bounds every record keeps: XP and hearts never go negative, hearts
      never exceed five, streaks and counters stay in range and every skill
      score lies in [0, 100]. */
  predicate RecordOk(r: UserRecord) {
    && r.xp >= 0
    && r.level >= 1
    && 0 <= r.hearts <= MaxHearts
    && r.streak >= 1
    && r.winStreak >= 0
    && 0 <= r.gamesWon <= r.gamesPlayed
    && (forall s :: s in r.skills ==> 0 <= r.skills[s] <= SkillCap)
  }

  predicate LevelMatches(r: UserRecord) {
    r.level == r.xp / XpPerLevel + 1
  }

  function StartingSkills(): (m: map<Skill, int>)
    ensures m.Keys == {Grammar, Vocabulary, ToneAndStyle, Concision, Comprehension}
    ensures forall s :: s in m ==> m[s] == 10
  {
    map[Grammar := 10, Vocabulary := 10, ToneAndStyle := 10, Concision := 10, Comprehension := 10]
  }

  /** The record `_ensure_user` creates for an unknown id. */
  function Fresh(now: int): (r: UserRecord)
    ensures RecordOk(r) && LevelMatches(r)
    ensures r.xp == 0 && r.level == 1 && r.streak == 1 && r.winStreak == 0
    ensures r.hearts == MaxHearts && r.gamesPlayed == 0 && r.gamesWon == 0 && r.lastActive == now
    ensures r.skills.Keys == {Grammar, Vocabulary, ToneAndStyle, Concision, Comprehension}
    ensures forall s :: s in r.skills ==> r.skills[s] == 10
  {
    UserRecord(0, 1, 1, 0, MaxHearts, 0, 0, now, StartingSkills())
  }

  /** The seeded "default_user": 2000 XP but level 1. */
  function Seeded(now: int): (r: UserRecord)
    ensures RecordOk(r) && !LevelMatches(r)
  {
    Fresh(now).(xp := 2000)
  }

  /** The users map after `_ensure_user(uid)`: known ids are left alone, an
      unknown id gets a fresh record. */
  function Ensured(users: map<string, UserRecord>, uid: string, now: int): (m: map<string, UserRecord>)
    ensures uid in m && m.Keys == users.Keys + {uid}
    ensures uid in users ==> m == users
    ensures uid !in users ==> m[uid] == Fresh(now)
    ensures forall u :: u in users ==> m[u] == users[u]
  {
    if uid in users then users else users[uid := Fresh(now)]
  }

  // ---------------------------------------------------------------------------
  // Per-record transitions

  /** `update_streak`: one day after the last activity the streak grows, after
      a longer gap it restarts at 1, otherwise it stays; the activity date
      becomes today. */
  function StreakAfter(r: UserRecord, now: int): (r': UserRecord)
    ensures r' == r.(streak := r'.streak, lastActive := now)
    ensures now - r.lastActive == 1 ==> r'.streak == r.streak + 1
    ensures now - r.lastActive > 1 ==> r'.streak == 1
    ensures now - r.lastActive < 1 ==> r'.streak == r.streak
    ensures RecordOk(r) ==> RecordOk(r')
  {
    var diff := now - r.lastActive;
    var streak := if diff == 1 then r.streak + 1 else if diff > 1 then 1 else r.streak;
    r.(streak := streak, lastActive := now)
  }

  /** Checking twice on the same day changes nothing more. */
  lemma StreakSameDayIdempotent(r: UserRecord, now: int)
    ensures StreakAfter(StreakAfter(r, now), now) == StreakAfter(r, now)
  {
  }

  /** A daily streak never exceeds one plus the number of days elapsed since
      the record was last touched, over any sequence of visits. */
  lemma {:induction false} StreakGrowsByDays(r: UserRecord, days: seq<int>)
    requires r.streak >= 1
    requires forall i :: 0 <= i < |days| ==> r.lastActive <= days[i]
    requires forall i, j :: 0 <= i < j < |days| ==> days[i] <= days[j]
    ensures StreaksAfter(r, days).streak <= r.streak + (if days == [] then 0 else days[|days| - 1] - r.lastActive)
    decreases |days|
  {
    if days != [] {
      var init := days[..|days| - 1];
      StreakGrowsByDays(r, init);
      LastActiveAfterVisits(r, init);
    }
  }

  function Max(a: int, b: int): int {
    if a >= b then a else b
  }

  function Min(a: int, b: int): int {
    if a <= b then a else b
  }

  /** The record after a visit on each of `days`, in order. */
  function StreaksAfter(r: UserRecord, days: seq<int>): UserRecord {
    if days == [] then r else StreakAfter(StreaksAfter(r, days[..|days| - 1]), days[|days| - 1])
  }

  lemma LastActiveAfterVisits(r: UserRecord, days: seq<int>)
    ensures StreaksAfter(r, days).lastActive == if days == [] then r.lastActive else days[|days| - 1]
  {
    if days != [] {
    }
  }

  /** `update_win_streak`: +1 on a win, back to 0 on a loss. */
  function WinStreakAfter(r: UserRecord, won: bool): (r': UserRecord)
    ensures r' == r.(winStreak := r'.winStreak)
    ensures won ==> r'.winStreak == r.winStreak + 1
    ensures !won ==> r'.winStreak == 0
    ensures RecordOk(r) ==> RecordOk(r')
  {
    r.(winStreak := if won then r.winStreak + 1 else 0)
  }

  /** `add_xp`: XP moves by delta but never below 0, and the level is
      recomputed from it. */
  function AddXpAfter(r: UserRecord, delta: int): (r': UserRecord)
    ensures r' == r.(xp := r'.xp, level := r'.level)
    ensures r'.xp >= 0 && LevelMatches(r')
    ensures r.xp + delta >= 0 ==> r'.xp == r.xp + delta
    ensures r.xp + delta < 0 ==> r'.xp == 0
    ensures RecordOk(r) ==> RecordOk(r')
  {
    var xp := Max(r.xp + delta, 0);
    r.(xp := xp, level := xp / XpPerLevel + 1)
  }

  /** A higher XP total never means a lower level. */
  lemma LevelMonotone(a: int, b: int)
    requires 0 <= a <= b
    ensures a / XpPerLevel + 1 <= b / XpPerLevel + 1
  {
  }

  /** `deduct_heart`: one heart less, floored at 0. */
  function DeductHeartAfter(r: UserRecord): (r': UserRecord)
    ensures r' == r.(hearts := r'.hearts)
    ensures r.hearts >= 1 ==> r'.hearts == r.hearts - 1
    ensures r.hearts < 1 ==> r'.hearts == 0
    ensures RecordOk(r) ==> RecordOk(r')
  {
    r.(hearts := Max(r.hearts - 1, 0))
  }

  /** `refill_hearts`: back to five. */
  function RefillAfter(r: UserRecord): (r': UserRecord)
    ensures r' == r.(hearts := MaxHearts)
    ensures RecordOk(r) ==> RecordOk(r')
  {
    r.(hearts := MaxHearts)
  }

  /** Five failures in a row exhaust a full set of hearts, and a refill
      restores them. */
  lemma FiveFailuresEmpty(r: UserRecord)
    requires r.hearts == MaxHearts
    ensures DeductHeartAfter(DeductHeartAfter(DeductHeartAfter(DeductHeartAfter(DeductHeartAfter(r))))).hearts == 0
    ensures RefillAfter(DeductHeartAfter(r)) == RefillAfter(r)
  {
  }

  datatype RedeemOutcome = Redeemed(newXp: int, newLevel: int) | Insufficient(message: string)

  const InsufficientMessage := "Insufficient XP balance."

  /** `redeem_xp`: succeeds iff the balance covers the amount; then the amount
      is taken and the level recomputed, otherwise nothing changes. */
  function RedeemAfter(r: UserRecord, amount: int): (res: (UserRecord, RedeemOutcome))
    ensures res.1.Redeemed? <==> r.xp >= amount
    ensures res.1.Redeemed? ==>
      && res.0 == r.(xp := r.xp - amount, level := (r.xp - amount) / XpPerLevel + 1)
      && res.1 == Redeemed(res.0.xp, res.0.level)
      && LevelMatches(res.0)
    ensures res.1.Insufficient? ==> res.0 == r && res.1.message == InsufficientMessage
    ensures RecordOk(r) ==> RecordOk(res.0)
  {
    if r.xp >= amount then
      var xp := r.xp - amount;
      var r' := r.(xp := xp, level := xp / XpPerLevel + 1);
      (r', Redeemed(r'.xp, r'.level))
    else (r, Insufficient(InsufficientMessage))
  }

  /** Redeeming a non-negative amount never raises the balance; a negative
      amount is accepted and raises it. */
  lemma RedeemSign(r: UserRecord, amount: int)
    requires r.xp >= amount
    ensures amount >= 0 ==> RedeemAfter(r, amount).0.xp <= r.xp
    ensures amount < 0 ==> RedeemAfter(r, amount).0.xp > r.xp
  {
  }

  // ---------------------------------------------------------------------------
  // The XP award

  /** The base award per game name; unknown names get 30. */
  function BaseXp(gameType: string): (b: int)
    ensures 30 <= b <= 120
  {
    match gameType
    case "Tone Switcher" => 60
    case "Word Choice Duel" => 40
    case "Redundancy Eraser" => 30
    case "Sentence Builder" => 50
    case "Sentence Reconstructor" => 100
    case "Plot Hole Hunter" => 80
    case "Dialogue Detective" => 70
    case "Context Climber" => 90
    case "Word Master" => 50
    case "Story Spinner" => 120
    case "Logic MCQ" => 40
    case "Visual Vocab" => 40
    case _ => 30
  }

  /** The skill each game trains; unknown names train Grammar. */
  function SkillOf(gameType: string): Skill {
    match gameType
    case "Tone Switcher" => ToneAndStyle
    case "Word Choice Duel" => Vocabulary
    case "Redundancy Eraser" => Concision
    case "Sentence Builder" => Grammar
    case "Sentence Reconstructor" => ToneAndStyle
    case "Plot Hole Hunter" => Comprehension
    case "Dialogue Detective" => Comprehension
    case "Context Climber" => ToneAndStyle
    case "Word Master" => Grammar
    case "Story Spinner" => ToneAndStyle
    case "Logic MCQ" => Grammar
    case "Visual Vocab" => Vocabulary
    case _ => Grammar
  }

  /** The game names both tables list. */
  const GameNames: set<string> := {"Tone Switcher", "Word Choice Duel", "Redundancy Eraser", "Sentence Builder",
    "Sentence Reconstructor", "Plot Hole Hunter", "Dialogue Detective", "Context Climber", "Word Master",
    "Story Spinner", "Logic MCQ", "Visual Vocab"}

  /** Game names outside the two tables fall back to base 30 and Grammar. */
  lemma UnknownGameDefaults(gameType: string)
    requires gameType !in GameNames
    ensures BaseXp(gameType) == 30 && SkillOf(gameType) == Grammar
  {
  }

  /** Python's `int()` on a float: truncation toward zero. */
  function Trunc(x: real): (n: int)
    ensures x >= 0.0 ==> n as real <= x < n as real + 1.0
    ensures x < 0.0 ==> n as real - 1.0 < x <= n as real
  {
    if x >= 0.0 then x.Floor else -((-x).Floor)
  }

  /** `min(1.0 + win_streak * 0.1, 2.0)`. */
  function Multiplier(winStreak: int): (m: real)
    ensures m <= 2.0
    ensures winStreak >= 0 ==> 1.0 <= m
    ensures winStreak >= 10 ==> m == 2.0
  {
    var m := 1.0 + winStreak as real * 0.1;
    if m <= 2.0 then m else 2.0
  }

  /** `(base_xp * accuracy) * multiplier`. */
  function Scaled(b: real, accuracy: real, m: real): real {
    (b * accuracy) * m
  }

  /** `int((base_xp * accuracy) * multiplier)`, the award before any hint
      penalty. */
  function WinAward(base: int, accuracy: real, winStreak: int): int {
    Trunc(Scaled(base as real, accuracy, Multiplier(winStreak)))
  }

  /** `int(x * 0.5)`. */
  function Halved(x: int): int {
    Trunc(x as real * 0.5)
  }

  /** The award `calculate_xp` returns for a given base, accuracy, prior win
      streak and hint use. */
  function Award(base: int, accuracy: real, winStreak: int, hintUsed: bool): int {
    if accuracy >= WinThreshold then
      var a := WinAward(base, accuracy, winStreak);
      if hintUsed then Halved(a) else a
    else -Halved(base)
  }

  /** A loss costs exactly half the base, rounded toward zero. */
  lemma LossAward(base: int, accuracy: real, winStreak: int, hintUsed: bool)
    requires base >= 0 && accuracy < WinThreshold
    ensures Award(base, accuracy, winStreak, hintUsed) == -(base / 2)
  {
    HalfOfInt(base);
  }

  lemma HalfOfInt(n: int)
    requires n >= 0
    ensures Halved(n) == n / 2
  {
    var q := n / 2;
    assert n == 2 * q || n == 2 * q + 1;
    assert (q as real) <= n as real * 0.5 < q as real + 1.0;
  }

  /** With accuracy in [0.8, 1] and a non-negative streak, the award before
      the hint penalty lies in [0, 2 * base]. */
  lemma WinAwardRange(base: int, accuracy: real, winStreak: int)
    requires base >= 0 && WinThreshold <= accuracy <= 1.0 && winStreak >= 0
    ensures 0 <= WinAward(base, accuracy, winStreak) <= 2 * base
  {
    ScaledUpper(base as real, accuracy, Multiplier(winStreak));
    ScaledNonneg(base as real, accuracy, Multiplier(winStreak));
    TruncBounds(Scaled(base as real, accuracy, Multiplier(winStreak)), base);
  }

  lemma TruncBounds(p: real, base: int)
    requires 0.0 <= p <= 2.0 * (base as real)
    ensures 0 <= Trunc(p) <= 2 * base
  {
  }

  lemma ScaledUpper(b: real, acc: real, m: real)
    requires 0.0 <= b && 0.0 <= acc <= 1.0 && 0.0 <= m <= 2.0
    ensures Scaled(b, acc, m) <= 2.0 * b
  {
    ProductUpper(b, acc, m);
    ScaledAtMost(b, acc, m, 2.0 * b);
  }

  lemma ScaledNonneg(b: real, acc: real, m: real)
    requires 0.0 <= b && 0.0 <= acc && 0.0 <= m
    ensures 0.0 <= Scaled(b, acc, m)
  {
    ProductMonotone(b, acc, m, m);
    ScaledOrdered(b, acc, m, m);
  }

  lemma ProductUpper(b: real, acc: real, m: real)
    requires 0.0 <= b && 0.0 <= acc <= 1.0 && 0.0 <= m <= 2.0
    ensures (b * acc) * m <= 2.0 * b
  {
    ScaleMonotone(b, acc, 1.0);
    ScaleMonotone(b * acc, m, 2.0);
    assert (b * acc) * 2.0 <= 2.0 * b;
  }

  lemma ScaledAtMost(b: real, acc: real, m: real, hi: real)
    requires (b * acc) * m <= hi
    ensures Scaled(b, acc, m) <= hi
  {
  }

  /** A win with accuracy at most 1 earns between 0 and twice the base, and a
      hint halves the award. */
  lemma WinAwardBounds(base: int, accuracy: real, winStreak: int, hintUsed: bool)
    requires base >= 0 && WinThreshold <= accuracy <= 1.0 && winStreak >= 0
    ensures 0 <= Award(base, accuracy, winStreak, hintUsed) <= 2 * base
    ensures hintUsed ==> Award(base, accuracy, winStreak, true) == Award(base, accuracy, winStreak, false) / 2
  {
    WinAwardRange(base, accuracy, winStreak);
    HalfOfInt(WinAward(base, accuracy, winStreak));
  }

  /** The multiplier, and hence a win's award, never decreases as the prior
      win streak grows. */
  lemma AwardMonotoneInStreak(base: int, accuracy: real, s1: int, s2: int, hintUsed: bool)
    requires base >= 0 && accuracy >= WinThreshold && 0 <= s1 <= s2
    ensures Award(base, accuracy, s1, hintUsed) <= Award(base, accuracy, s2, hintUsed)
  {
    WinAwardMonotone(base, accuracy, s1, s2);
    var w1, w2 := WinAward(base, accuracy, s1), WinAward(base, accuracy, s2);
    if hintUsed {
      HalfOfInt(w1);
      HalfOfInt(w2);
    }
  }

  lemma WinAwardMonotone(base: int, accuracy: real, s1: int, s2: int)
    requires base >= 0 && accuracy >= WinThreshold && 0 <= s1 <= s2
    ensures 0 <= WinAward(base, accuracy, s1) <= WinAward(base, accuracy, s2)
  {
    ProductMonotone(base as real, accuracy, Multiplier(s1), Multiplier(s2));
    ScaledOrdered(base as real, accuracy, Multiplier(s1), Multiplier(s2));
    TruncMonotone(Scaled(base as real, accuracy, Multiplier(s1)), Scaled(base as real, accuracy, Multiplier(s2)));
  }

  lemma ProductMonotone(b: real, acc: real, m1: real, m2: real)
    requires 0.0 <= b && 0.0 <= acc && 0.0 <= m1 <= m2
    ensures 0.0 <= (b * acc) * m1 <= (b * acc) * m2
  {
    ScaleMonotone(b, 0.0, acc);
    ScaleMonotone(b * acc, 0.0, m1);
    ScaleMonotone(b * acc, m1, m2);
  }

  lemma ScaledOrdered(b: real, acc: real, m1: real, m2: real)
    requires 0.0 <= (b * acc) * m1 <= (b * acc) * m2
    ensures 0.0 <= Scaled(b, acc, m1) <= Scaled(b, acc, m2)
  {
  }

  lemma ScaleMonotone(x: real, a: real, b: real)
    requires 0.0 <= x && 0.0 <= a <= b
    ensures 0.0 <= x * a <= x * b
  {
  }

  lemma TruncMonotone(x: real, y: real)
    requires 0.0 <= x <= y
    ensures 0 <= Trunc(x) <= Trunc(y)
  {
  }

  function SkillOr(m: map<Skill, int>, s: Skill): int {
    if s in m then m[s] else 10
  }

  /** The play counters and skill score after one answer: games_played always
      grows, games_won grows iff the accuracy reaches 0.8, and the game's skill
      rises by 5 (capped at 100) on a win or falls by 2 (floored at 0) on a
      loss. */
  function PlayAfter(r: UserRecord, gameType: string, accuracy: real): (r': UserRecord)
    ensures r'.gamesPlayed == r.gamesPlayed + 1
    ensures r'.gamesWon == r.gamesWon + (if accuracy >= WinThreshold then 1 else 0)
    ensures SkillOf(gameType) in r'.skills
    ensures var s := SkillOf(gameType);
      && r'.skills == r.skills[s := r'.skills[s]]
      && (accuracy >= WinThreshold ==> r'.skills[s] == Min(SkillOr(r.skills, s) + 5, SkillCap))
      && (accuracy < WinThreshold ==> r'.skills[s] == Max(SkillOr(r.skills, s) - 2, 0))
    ensures r' == r.(gamesPlayed := r'.gamesPlayed, gamesWon := r'.gamesWon, skills := r'.skills)
    ensures RecordOk(r) ==> RecordOk(r')
  {
    var s := SkillOf(gameType);
    var won := accuracy >= WinThreshold;
    var score := if won then Min(SkillOr(r.skills, s) + 5, SkillCap) else Max(SkillOr(r.skills, s) - 2, 0);
    r.(gamesPlayed := r.gamesPlayed + 1,
       gamesWon := r.gamesWon + (if won then 1 else 0),
       skills := r.skills[s := score])
  }

  // ---------------------------------------------------------------------------
  // The engine

  datatype Entry = Entry(userId: string, level: int, xp: int)

  const LeaderboardSize := 15

  /** The ten fixed rivals added to every leaderboard. */
  const Rivals: seq<Entry> := [
    Entry("Arjun_Pro", 12, 6200),
    Entry("Neha_Writer", 10, 5100),
    Entry("Rahul_Grammar", 9, 4800),
    Entry("Priya_Lit", 8, 4200),
    Entry("Vikram_Bot", 7, 3600),
    Entry("Sarthak_AI", 15, 7500),
    Entry("Aisha_Pen", 6, 3100),
    Entry("Kabir_Lyrics", 5, 2600),
    Entry("Rohan_Scribe", 4, 2100),
    Entry("Zoya_Auth", 3, 1600)
  ]

  /** The real users' rows, in dict insertion order. */
  function UserRows(order: seq<string>, users: map<string, UserRecord>): (rows: seq<Entry>)
    requires forall i :: 0 <= i < |order| ==> order[i] in users
    ensures |rows| == |order|
    ensures forall i :: 0 <= i < |order| ==>
      rows[i] == Entry(order[i], users[order[i]].level, users[order[i]].xp)
  {
    if order == [] then []
    else UserRows(order[..|order| - 1], users) + [Entry(order[|order| - 1], users[order[|order| - 1]].level, users[order[|order| - 1]].xp)]
  }

  /** The rivals whose id no real user has, in their listed order. */
  function AbsentRivals(rivals: seq<Entry>, users: map<string, UserRecord>): (rows: seq<Entry>)
    ensures forall e :: e in rows <==> e in rivals && e.userId !in users
  {
    if rivals == [] then []
    else
      var last := rivals[|rivals| - 1];
      AbsentRivals(rivals[..|rivals| - 1], users) + (if last.userId in users then [] else [last])
  }

  predicate SortedByXp(s: seq<Entry>) {
    forall i, j :: 0 <= i < j < |s| ==> s[i].xp >= s[j].xp
  }

  /** Insertion into an xp-descending list after every entry with at least the
      same xp, which keeps equal-xp entries in arrival order as Python's stable
      sort does. */
  function InsertByXp(s: seq<Entry>, e: Entry): (r: seq<Entry>)
    ensures multiset(r) == multiset(s) + multiset{e}
  {
    if s == [] then [e]
    else if s[0].xp >= e.xp then
      assert s == [s[0]] + s[1..];
      [s[0]] + InsertByXp(s[1..], e)
    else
      [e] + s
  }

  lemma {:induction false} InsertByXpSorted(s: seq<Entry>, e: Entry)
    requires SortedByXp(s)
    ensures SortedByXp(InsertByXp(s, e))
  {
    if s != [] && s[0].xp >= e.xp {
      var rest := InsertByXp(s[1..], e);
      InsertByXpSorted(s[1..], e);
      forall x | x in rest ensures s[0].xp >= x.xp {
        assert x in multiset(rest);
        assert x in multiset(s[1..]) || x == e;
      }
    }
  }

  /** `board.sort(key=xp, reverse=True)`. */
  function SortByXp(s: seq<Entry>): (r: seq<Entry>)
    ensures multiset(r) == multiset(s) && SortedByXp(r)
  {
    if s == [] then []
    else
      assert s == s[..|s| - 1] + [s[|s| - 1]];
      var init := SortByXp(s[..|s| - 1]);
      InsertByXpSorted(init, s[|s| - 1]);
      InsertByXp(init, s[|s| - 1])
  }

  function Take<T>(s: seq<T>, n: nat): (r: seq<T>)
    ensures |r| == Min(|s|, n) && r == s[..|r|]
  {
    if |s| <= n then s else s[..n]
  }

  class GamificationEngine {
    var users: map<string, UserRecord>
    /** The ids in the order they were first added (dict iteration order). */
    var order: seq<string>

    ghost predicate Valid()
      reads this
    {
      && (forall u :: u in users <==> u in order)
      && (forall i, j :: 0 <= i < j < |order| ==> order[i] != order[j])
      && (forall u :: u in users ==> RecordOk(users[u]))
    }

    /** The rows the leaderboard sorts: real users, then absent rivals. */
    function Candidates(): (rows: seq<Entry>)
      requires Valid()
      reads this
    {
      UserRows(order, users) + AbsentRivals(Rivals, users)
    }

    constructor(now: int)
      ensures Valid()
      ensures users == map["default_user" := Seeded(now)] && order == ["default_user"]
    {
      users := map["default_user" := Seeded(now)];
      order := ["default_user"];
    }

    method EnsureUser(uid: string, now: int)
      requires Valid()
      modifies this
      ensures Valid()
      ensures users == Ensured(old(users), uid, now)
      ensures order == if uid in old(users) then old(order) else old(order) + [uid]
    {
      if uid !in users {
        users := users[uid := Fresh(now)];
        order := order + [uid];
      }
    }

    method UpdateStreak(uid: string, now: int) returns (streak: int)
      requires Valid()
      modifies this
      ensures Valid()
      ensures var e := Ensured(old(users), uid, now);
        users == e[uid := StreakAfter(e[uid], now)] && streak == users[uid].streak
      ensures order == if uid in old(users) then old(order) else old(order) + [uid]
    {
      EnsureUser(uid, now);
      var user := users[uid];
      var diff := now - user.lastActive;
      if diff == 1 {
        user := user.(streak := user.streak + 1);
      } else if diff > 1 {
        user := user.(streak := 1);
      }
      user := user.(lastActive := now);
      users := users[uid := user];
      streak := user.streak;
    }

    method UpdateWinStreak(uid: string, won: bool, now: int) returns (winStreak: int)
      requires Valid()
      modifies this
      ensures Valid()
      ensures var e := Ensured(old(users), uid, now);
        users == e[uid := WinStreakAfter(e[uid], won)] && winStreak == users[uid].winStreak
      ensures order == if uid in old(users) then old(order) else old(order) + [uid]
    {
      EnsureUser(uid, now);
      if won {
        users := users[uid := users[uid].(winStreak := users[uid].winStreak + 1)];
      } else {
        users := users[uid := users[uid].(winStreak := 0)];
      }
      winStreak := users[uid].winStreak;
    }

    /** `calculate_xp`: updates the play counters and the game's skill and
        returns the award, computed from the win streak as it stands. */
    method CalculateXp(uid: string, gameType: string, accuracy: real, hintUsed: bool, now: int)
      returns (awarded: int)
      requires Valid()
      modifies this
      ensures Valid()
      ensures var e := Ensured(old(users), uid, now);
        && users == e[uid := PlayAfter(e[uid], gameType, accuracy)]
        && awarded == Award(BaseXp(gameType), accuracy, e[uid].winStreak, hintUsed)
      ensures order == if uid in old(users) then old(order) else old(order) + [uid]
    {
      EnsureUser(uid, now);
      var user := users[uid];
      ghost var before := user;
      var base := BaseXp(gameType);
      user := user.(gamesPlayed := user.gamesPlayed + 1);
      if accuracy >= WinThreshold {
        user := user.(gamesWon := user.gamesWon + 1);
      }
      var skill := SkillOf(gameType);
      var multiplier := Multiplier(user.winStreak);
      if accuracy >= WinThreshold {
        awarded := Trunc(Scaled(base as real, accuracy, multiplier));
        if hintUsed {
          awarded := Halved(awarded);
        }
        user := user.(skills := user.skills[skill := Min(SkillOr(user.skills, skill) + 5, SkillCap)]);
      } else {
        awarded := -Halved(base);
        user := user.(skills := user.skills[skill := Max(SkillOr(user.skills, skill) - 2, 0)]);
      }
      assert user == PlayAfter(before, gameType, accuracy);
      assert awarded == Award(base, accuracy, before.winStreak, hintUsed);
      users := users[uid := user];
    }

    method AddXp(uid: string, delta: int, now: int) returns (xp: int)
      requires Valid()
      modifies this
      ensures Valid()
      ensures var e := Ensured(old(users), uid, now);
        users == e[uid := AddXpAfter(e[uid], delta)] && xp == users[uid].xp
      ensures order == if uid in old(users) then old(order) else old(order) + [uid]
    {
      EnsureUser(uid, now);
      var user := users[uid];
      user := user.(xp := Max(user.xp + delta, 0));
      user := user.(level := user.xp / XpPerLevel + 1);
      users := users[uid := user];
      xp := user.xp;
    }

    method DeductHeart(uid: string, now: int) returns (hearts: int)
      requires Valid()
      modifies this
      ensures Valid()
      ensures var e := Ensured(old(users), uid, now);
        users == e[uid := DeductHeartAfter(e[uid])] && hearts == users[uid].hearts
      ensures order == if uid in old(users) then old(order) else old(order) + [uid]
    {
      EnsureUser(uid, now);
      users := users[uid := users[uid].(hearts := Max(users[uid].hearts - 1, 0))];
      hearts := users[uid].hearts;
    }

    method RedeemXp(uid: string, amount: int, now: int) returns (outcome: RedeemOutcome)
      requires Valid()
      modifies this
      ensures Valid()
      ensures var e := Ensured(old(users), uid, now);
        var res := RedeemAfter(e[uid], amount);
        users == e[uid := res.0] && outcome == res.1
      ensures order == if uid in old(users) then old(order) else old(order) + [uid]
    {
      EnsureUser(uid, now);
      var user := users[uid];
      if user.xp >= amount {
        user := user.(xp := user.xp - amount);
        user := user.(level := user.xp / XpPerLevel + 1);
        users := users[uid := user];
        return Redeemed(user.xp, user.level);
      }
      return Insufficient(InsufficientMessage);
    }

    method RefillHearts(uid: string, now: int) returns (hearts: int)
      requires Valid()
      modifies this
      ensures Valid()
      ensures var e := Ensured(old(users), uid, now);
        users == e[uid := RefillAfter(e[uid])] && hearts == MaxHearts
      ensures order == if uid in old(users) then old(order) else old(order) + [uid]
    {
      EnsureUser(uid, now);
      users := users[uid := users[uid].(hearts := MaxHearts)];
      return MaxHearts;
    }

    /** `get_user_stats`: reading the stats also updates the daily streak. */
    method GetUserStats(uid: string, now: int) returns (stats: UserRecord)
      requires Valid()
      modifies this
      ensures Valid()
      ensures var e := Ensured(old(users), uid, now);
        users == e[uid := StreakAfter(e[uid], now)] && stats == users[uid]
      ensures order == if uid in old(users) then old(order) else old(order) + [uid]
    {
      EnsureUser(uid, now);
      var _ := UpdateStreak(uid, now);
      stats := users[uid];
    }

    /** `get_leaderboard`: every user's row, then each rival whose id is not a
        user, sorted by XP descending and cut to 15. */
    method GetLeaderboard() returns (board: seq<Entry>)
      requires Valid()
      ensures board == Take(SortByXp(Candidates()), LeaderboardSize)
    {
      var rows: seq<Entry> := [];
      var i := 0;
      while i < |order|
        invariant 0 <= i <= |order|
        invariant rows == UserRows(order[..i], users)
      {
        assert order[..i + 1][..i] == order[..i];
        rows := rows + [Entry(order[i], users[order[i]].level, users[order[i]].xp)];
        i := i + 1;
      }
      assert order[..i] == order;
      rows := AppendAbsent(rows, Rivals, users);
      var sorted := SortRows(rows);
      board := if |sorted| <= LeaderboardSize then sorted else sorted[..LeaderboardSize];
    }
  }

  /** The rival loop: each rival is appended unless a user has its id. */
  method AppendAbsent(rows: seq<Entry>, rivals: seq<Entry>, users: map<string, UserRecord>)
    returns (out: seq<Entry>)
    ensures out == rows + AbsentRivals(rivals, users)
  {
    out := rows;
    var k := 0;
    while k < |rivals|
      invariant 0 <= k <= |rivals|
      invariant out == rows + AbsentRivals(rivals[..k], users)
    {
      assert rivals[..k + 1][..k] == rivals[..k];
      if rivals[k].userId !in users {
        out := out + [rivals[k]];
      }
      k := k + 1;
    }
    assert rivals[..k] == rivals;
  }

  /** The in-place sort, as successive stable insertions. */
  method SortRows(rows: seq<Entry>) returns (sorted: seq<Entry>)
    ensures sorted == SortByXp(rows)
  {
    sorted := [];
    var j := 0;
    while j < |rows|
      invariant 0 <= j <= |rows|
      invariant sorted == SortByXp(rows[..j])
    {
      assert rows[..j + 1][..j] == rows[..j];
      sorted := InsertByXp(sorted, rows[j]);
      j := j + 1;
    }
    assert rows[..j] == rows;
  }

  /** The leaderboard holds at most 15 rows, sorted by XP, each either a
      user's row or a rival no user shadows, and none of them is missing if
      there are at most 15 candidates. */
  lemma LeaderboardShape(order: seq<string>, users: map<string, UserRecord>, rivals: seq<Entry>, board: seq<Entry>)
    requires forall i :: 0 <= i < |order| ==> order[i] in users
    requires board == Take(SortByXp(UserRows(order, users) + AbsentRivals(rivals, users)), LeaderboardSize)
    ensures |board| <= LeaderboardSize && SortedByXp(board)
    ensures forall e :: e in board ==>
      (exists i :: 0 <= i < |order| && e == Entry(order[i], users[order[i]].level, users[order[i]].xp))
      || (e in rivals && e.userId !in users)
    ensures |board| == Min(|order| + |AbsentRivals(rivals, users)|, LeaderboardSize)
  {
    var c := UserRows(order, users) + AbsentRivals(rivals, users);
    var s := SortByXp(c);
    SortKeepsLength(c);
    TakeSorted(s, LeaderboardSize);
    forall e | e in board
      ensures (exists i :: 0 <= i < |order| && e == Entry(order[i], users[order[i]].level, users[order[i]].xp))
        || (e in rivals && e.userId !in users)
    {
      TakeMember(s, LeaderboardSize, e);
      CombinedMember(order, users, rivals, e);
    }
  }

  lemma TakeSorted(s: seq<Entry>, n: nat)
    requires SortedByXp(s)
    ensures SortedByXp(Take(s, n))
  {
  }

  lemma TakeMember<T>(s: seq<T>, n: nat, e: T)
    requires e in Take(s, n)
    ensures e in s
  {
    var k :| 0 <= k < |Take(s, n)| && Take(s, n)[k] == e;
    assert s[k] == e;
  }

  /** A row of the sorted candidates is a user's row or an absent rival. */
  lemma CombinedMember(order: seq<string>, users: map<string, UserRecord>, rivals: seq<Entry>, e: Entry)
    requires forall i :: 0 <= i < |order| ==> order[i] in users
    requires e in SortByXp(UserRows(order, users) + AbsentRivals(rivals, users))
    ensures (exists i :: 0 <= i < |order| && e == Entry(order[i], users[order[i]].level, users[order[i]].xp))
      || (e in rivals && e.userId !in users)
  {
    SortKeepsMembers(UserRows(order, users) + AbsentRivals(rivals, users), e);
    if e !in AbsentRivals(rivals, users) {
      UserRowsMember(order, users, e);
    }
  }

  lemma SortKeepsLength(c: seq<Entry>)
    ensures |SortByXp(c)| == |c|
  {
    assert |multiset(SortByXp(c))| == |multiset(c)|;
  }

  lemma SortKeepsMembers(c: seq<Entry>, e: Entry)
    requires e in SortByXp(c)
    ensures e in c
  {
    assert e in multiset(SortByXp(c));
  }

  lemma UserRowsMember(order: seq<string>, users: map<string, UserRecord>, e: Entry)
    requires forall i :: 0 <= i < |order| ==> order[i] in users
    requires e in UserRows(order, users)
    ensures exists i :: 0 <= i < |order| && e == Entry(order[i], users[order[i]].level, users[order[i]].xp)
  {
    var k :| 0 <= k < |UserRows(order, users)| && UserRows(order, users)[k] == e;
    assert e == Entry(order[k], users[order[k]].level, users[order[k]].xp);
  }

  /** Nothing left out of the leaderboard has more XP than a row in it. */
  lemma LeaderboardIsTop(c: seq<Entry>, e: Entry, i: nat)
    requires e in SortByXp(c) && e !in Take(SortByXp(c), LeaderboardSize)
    requires i < |Take(SortByXp(c), LeaderboardSize)|
    ensures e.xp <= Take(SortByXp(c), LeaderboardSize)[i].xp
  {
    var s := SortByXp(c);
    var k :| 0 <= k < |s| && s[k] == e;
    assert k >= LeaderboardSize;
  }
}
