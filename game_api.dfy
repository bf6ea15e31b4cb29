/** The game backend's HTTP handlers for answer verification, XP redemption,
    heart refills and stats, each a fixed sequence of calls on the shared
    progress engine. The AI verdict is an input record whose fields may be
    missing; the request's user id header and the clock are parameters. */
module GameApi {
  import opened Wrappers
  import opened Strings
  import opened Gamification

  /** The fields read from the AI verifier's reply, each possibly absent. */
  datatype AiVerdict = AiVerdict(
    success: Option<bool>,
    reason: Option<string>,
    masteryLevel: Option<real>,
    correctAnswer: Option<string>)

  const DefaultReason := "AI could not determine correctness."

  datatype VerifyResponse = VerifyResponse(
    success: bool,
    reason: string,
    xpReward: int,
    newStreak: int,
    winStreak: int,
    masteryLevel: real,
    currentHearts: int,
    correctAnswer: Option<string>)

  /** The verdict's fields with the handler's defaults filled in. */
  function Success(v: AiVerdict): bool { v.success.GetOr(false) }
  function Reason(v: AiVerdict): string { v.reason.GetOr(DefaultReason) }
  function Mastery(v: AiVerdict): real { v.masteryLevel.GetOr(0.0) }

  /** A verdict with no fields is a failure with mastery 0 and the default
      reason. */
  lemma MissingFieldsDefault(v: AiVerdict)
    requires v.success.None? && v.reason.None? && v.masteryLevel.None?
    ensures !Success(v) && Reason(v) == DefaultReason && Mastery(v) == 0.0
  {
  }

  /** What the success branch of `/game/verify` does to the record:
      calculate_xp, add_xp, update_streak. Returns the record before the win
      streak update together with the award. */
  function WinSteps(r: UserRecord, gameType: string, mastery: real, hintUsed: bool, now: int)
    : (res: (UserRecord, int))
    ensures RecordOk(r) ==> RecordOk(res.0)
  {
    var award := Award(BaseXp(gameType), mastery, r.winStreak, hintUsed);
    (StreakAfter(AddXpAfter(PlayAfter(r, gameType, mastery), award), now), award)
  }

  /** What the failure branch does: deduct_heart first, then calculate_xp,
      add_xp and get_user_stats (which updates the streak). Returns the record
      before the win streak update, the award and the hearts deduct_heart
      reported. */
  function LossSteps(r: UserRecord, gameType: string, mastery: real, hintUsed: bool, now: int)
    : (res: (UserRecord, int, int))
    ensures RecordOk(r) ==> RecordOk(res.0)
  {
    var r0 := DeductHeartAfter(r);
    var award := Award(BaseXp(gameType), mastery, r0.winStreak, hintUsed);
    (StreakAfter(AddXpAfter(PlayAfter(r0, gameType, mastery), award), now), award, r0.hearts)
  }

  /** The record and the response after `/game/verify`, starting from the
      caller's record as `_ensure_user` leaves it. Either branch ends with
      update_win_streak. */
  function VerifyOutcome(r: UserRecord, gameType: string, hintUsed: bool, v: AiVerdict, now: int)
    : (res: (UserRecord, VerifyResponse))
    ensures RecordOk(r) ==> RecordOk(res.0)
  {
    var mastery := Mastery(v);
    if Success(v) then
      var w := WinSteps(r, gameType, mastery, hintUsed, now);
      var r3 := WinStreakAfter(w.0, true);
      (r3, VerifyResponse(true, Reason(v), w.1, w.0.streak, r3.winStreak, mastery, w.0.hearts, v.correctAnswer))
    else
      var l := LossSteps(r, gameType, mastery, hintUsed, now);
      var r3 := WinStreakAfter(l.0, false);
      (r3, VerifyResponse(false, Reason(v), l.1, l.0.streak, r3.winStreak, mastery, l.2, v.correctAnswer))
  }

  /** A failed verification costs one heart (floored at 0) before anything
      else, and the reported hearts are the ones left; a success leaves the
      hearts alone. */
  lemma VerifyHearts(r: UserRecord, gameType: string, hintUsed: bool, v: AiVerdict, now: int)
    ensures var res := VerifyOutcome(r, gameType, hintUsed, v, now);
      && res.1.currentHearts == res.0.hearts
      && (!Success(v) ==> res.0.hearts == Max(r.hearts - 1, 0))
      && (Success(v) ==> res.0.hearts == r.hearts)
  {
  }

  /** The award always uses the win streak from before the answer; the win
      streak is then bumped or reset according to the verdict. */
  lemma VerifyUsesPriorWinStreak(r: UserRecord, gameType: string, hintUsed: bool, v: AiVerdict, now: int)
    ensures var res := VerifyOutcome(r, gameType, hintUsed, v, now);
      && res.1.xpReward == Award(BaseXp(gameType), Mastery(v), r.winStreak, hintUsed)
      && res.0.winStreak == (if Success(v) then r.winStreak + 1 else 0)
      && res.1.winStreak == res.0.winStreak
  {
  }

  /** Both branches play the game and add its award to the XP, and both update
      the daily streak for today. */
  lemma VerifyCommonSteps(r: UserRecord, gameType: string, hintUsed: bool, v: AiVerdict, now: int)
    ensures var res := VerifyOutcome(r, gameType, hintUsed, v, now);
      var played := PlayAfter(r, gameType, Mastery(v));
      && res.0.gamesPlayed == r.gamesPlayed + 1
      && res.0.gamesWon == played.gamesWon
      && res.0.skills == played.skills
      && res.0.xp == Max(r.xp + res.1.xpReward, 0)
      && res.0.lastActive == now
      && res.1.newStreak == res.0.streak == StreakAfter(r, now).streak
  {
  }

  /** A verdict marked successful but with mastery below 0.8 still loses half
      the base XP and two skill points, and does not count as a game won. */
  lemma LowMasterySuccessPenalised(r: UserRecord, gameType: string, hintUsed: bool, v: AiVerdict, now: int)
    requires Success(v) && Mastery(v) < WinThreshold
    ensures var res := VerifyOutcome(r, gameType, hintUsed, v, now);
      var s := SkillOf(gameType);
      && res.1.success
      && res.1.xpReward == -(BaseXp(gameType) / 2)
      && res.0.gamesWon == r.gamesWon
      && s in res.0.skills && res.0.skills[s] == Max(SkillOr(r.skills, s) - 2, 0)
      && res.0.winStreak == r.winStreak + 1
  {
    LossAward(BaseXp(gameType), Mastery(v), r.winStreak, hintUsed);
  }

  /** calculate_xp followed by add_xp with the award, on a known user. */
  method PlayAndAward(engine: GamificationEngine, uid: string, gameType: string, mastery: real, hintUsed: bool, now: int)
    returns (xpReward: int)
    requires engine.Valid() && uid in engine.users
    modifies engine
    ensures engine.Valid()
    ensures var r := old(engine.users)[uid];
      && xpReward == Award(BaseXp(gameType), mastery, r.winStreak, hintUsed)
      && engine.users == old(engine.users)[uid := AddXpAfter(PlayAfter(r, gameType, mastery), xpReward)]
  {
    ghost var m := engine.users;
    assert Ensured(m, uid, now) == m;
    xpReward := engine.CalculateXp(uid, gameType, mastery, hintUsed, now);
    ghost var played := PlayAfter(m[uid], gameType, mastery);
    assert engine.users == m[uid := played];
    ghost var m1 := engine.users;
    assert Ensured(m1, uid, now) == m1;
    var _ := engine.AddXp(uid, xpReward, now);
    assert engine.users == m1[uid := AddXpAfter(played, xpReward)];
    UpdateTwice(m, uid, played, AddXpAfter(played, xpReward));
  }

  /** The success branch of `/game/verify` on the engine. */
  method VerifyWin(engine: GamificationEngine, uid: string, gameType: string, mastery: real, hintUsed: bool, now: int)
    returns (xpReward: int, streak: int, hearts: int)
    requires engine.Valid() && uid in engine.users
    modifies engine
    ensures engine.Valid()
    ensures var w := WinSteps(old(engine.users)[uid], gameType, mastery, hintUsed, now);
      && engine.users == old(engine.users)[uid := w.0]
      && xpReward == w.1 && streak == w.0.streak && hearts == w.0.hearts
  {
    xpReward := PlayAndAward(engine, uid, gameType, mastery, hintUsed, now);
    streak := engine.UpdateStreak(uid, now);
    hearts := engine.users[uid].hearts;
  }

  /** The failure branch of `/game/verify` on the engine. */
  method VerifyLoss(engine: GamificationEngine, uid: string, gameType: string, mastery: real, hintUsed: bool, now: int)
    returns (xpReward: int, streak: int, hearts: int)
    requires engine.Valid() && uid in engine.users
    modifies engine
    ensures engine.Valid()
    ensures var l := LossSteps(old(engine.users)[uid], gameType, mastery, hintUsed, now);
      && engine.users == old(engine.users)[uid := l.0]
      && xpReward == l.1 && streak == l.0.streak && hearts == l.2
  {
    ghost var m := engine.users;
    assert Ensured(m, uid, now) == m;
    hearts := engine.DeductHeart(uid, now);
    ghost var d := DeductHeartAfter(m[uid]);
    assert engine.users == m[uid := d];
    xpReward := PlayAndAward(engine, uid, gameType, mastery, hintUsed, now);
    ghost var a := AddXpAfter(PlayAfter(d, gameType, mastery), xpReward);
    UpdateTwice(m, uid, d, a);
    ghost var m2 := engine.users;
    assert m2 == m[uid := a];
    assert Ensured(m2, uid, now) == m2;
    var stats := engine.GetUserStats(uid, now);
    streak := stats.streak;
    UpdateTwice(m, uid, a, StreakAfter(a, now));
  }

  /** An error answer: its HTTP status and its detail text. */
  datatype HttpError = HttpError(status: int, detail: string)

  /** `/game/verify`. `verdict` is the AI verifier's reply, or the text of
      the exception the verifier raised, which the handler answers with 500
      and that text before any engine call. */
  method VerifyGame(engine: GamificationEngine, uid: string, gameType: string, hintUsed: bool,
                    verdict: Result<AiVerdict, string>, now: int)
    returns (resp: Result<VerifyResponse, HttpError>)
    requires engine.Valid()
    modifies engine
    ensures engine.Valid()
    ensures verdict.Failure? ==>
      resp == Failure(HttpError(500, verdict.error))
      && engine.users == old(engine.users) && engine.order == old(engine.order)
    ensures verdict.Success? ==>
      var e := Ensured(old(engine.users), uid, now);
      var res := VerifyOutcome(e[uid], gameType, hintUsed, verdict.value, now);
      engine.users == e[uid := res.0] && resp == Result.Success(res.1)
  {
    if verdict.Failure? {
      return Failure(HttpError(500, verdict.error));
    }
    var v := verdict.value;
    var success := v.success.GetOr(false);
    var reason := v.reason.GetOr(DefaultReason);
    var mastery := v.masteryLevel.GetOr(0.0);
    engine.EnsureUser(uid, now);
    ghost var e := engine.users;
    assert success == Success(v) && mastery == Mastery(v) && reason == Reason(v);
    var xpReward: int;
    var streak: int;
    var currentHearts: int;
    if success {
      xpReward, streak, currentHearts := VerifyWin(engine, uid, gameType, mastery, hintUsed, now);
      assert engine.users == e[uid := WinSteps(e[uid], gameType, mastery, hintUsed, now).0];
    } else {
      xpReward, streak, currentHearts := VerifyLoss(engine, uid, gameType, mastery, hintUsed, now);
      assert engine.users == e[uid := LossSteps(e[uid], gameType, mastery, hintUsed, now).0];
    }
    ghost var mid := engine.users;
    ghost var before := mid[uid];
    var winStreak := engine.UpdateWinStreak(uid, success, now);
    assert Ensured(mid, uid, now) == mid;
    assert engine.users == mid[uid := WinStreakAfter(before, success)];
    UpdateTwice(e, uid, before, WinStreakAfter(before, success));
    resp := Result.Success(VerifyResponse(success, reason, xpReward, streak, winStreak, mastery, currentHearts, v.correctAnswer));
  }

  lemma UpdateTwice<K, V>(m: map<K, V>, k: K, a: V, b: V)
    ensures m[k := a][k := b] == m[k := b]
  {
  }

  datatype RedeemResponse = RedeemResponse(success: bool, message: string, newXp: Option<int>, newLevel: Option<int>)

  /** The response `/user/redeem-xp` builds from the engine's outcome. */
  function RedeemResponseOf(outcome: RedeemOutcome, amount: int): (resp: RedeemResponse)
    ensures resp.success <==> outcome.Redeemed?
    ensures outcome.Insufficient? ==>
      resp.message == outcome.message && resp.newXp.None? && resp.newLevel.None?
    ensures outcome.Redeemed? ==>
      && resp.message == "Successfully redeemed " + IntToString(amount) + " XP."
      && resp.newXp == Some(outcome.newXp) && resp.newLevel == Some(outcome.newLevel)
  {
    match outcome
    case Insufficient(message) => RedeemResponse(false, message, None, None)
    case Redeemed(xp, level) =>
      RedeemResponse(true, "Successfully redeemed " + IntToString(amount) + " XP.", Some(xp), Some(level))
  }

  /** A redeem succeeds iff the balance covers the amount; a refused one
      reports the engine's message and no balance. */
  lemma RedeemResponseCases(r: UserRecord, amount: int)
    ensures var resp := RedeemResponseOf(RedeemAfter(r, amount).1, amount);
      && (resp.success <==> r.xp >= amount)
      && (resp.success ==> resp.newXp == Some(r.xp - amount) && resp.newLevel == Some((r.xp - amount) / XpPerLevel + 1))
      && (!resp.success ==> resp.message == InsufficientMessage && resp.newXp.None? && resp.newLevel.None?)
  {
  }

  /** `/user/redeem-xp`. */
  method RedeemXpHandler(engine: GamificationEngine, uid: string, amount: int, now: int)
    returns (resp: RedeemResponse)
    requires engine.Valid()
    modifies engine
    ensures engine.Valid()
    ensures var e := Ensured(old(engine.users), uid, now);
      var res := RedeemAfter(e[uid], amount);
      engine.users == e[uid := res.0] && resp == RedeemResponseOf(res.1, amount)
  {
    var result := engine.RedeemXp(uid, amount, now);
    if !result.Redeemed? {
      return RedeemResponse(false, result.message, None, None);
    }
    resp := RedeemResponse(true, "Successfully redeemed " + IntToString(amount) + " XP.", Some(result.newXp), Some(result.newLevel));
  }

  /** `/user/refill-hearts`. */
  method RefillHeartsHandler(engine: GamificationEngine, uid: string, now: int) returns (hearts: int)
    requires engine.Valid()
    modifies engine
    ensures engine.Valid()
    ensures var e := Ensured(old(engine.users), uid, now);
      engine.users == e[uid := RefillAfter(e[uid])] && hearts == MaxHearts
  {
    hearts := engine.RefillHearts(uid, now);
  }

  datatype UserStats = UserStats(
    userId: string,
    xp: int,
    level: int,
    streak: int,
    winStreak: int,
    hearts: int,
    gamesPlayed: int,
    gamesWon: int,
    skills: map<Skill, int>)

  function StatsOf(uid: string, r: UserRecord): UserStats {
    UserStats(uid, r.xp, r.level, r.streak, r.winStreak, r.hearts, r.gamesPlayed, r.gamesWon, r.skills)
  }

  /** Reading the stats is a write: unless the record was touched today, the
      stored record changes. */
  lemma StatsReadWrites(r: UserRecord, now: int)
    requires now != r.lastActive
    ensures StreakAfter(r, now) != r
  {
  }

  /** `/user/stats`: the reply shows the record after the streak update. */
  method StatsHandler(engine: GamificationEngine, uid: string, now: int) returns (stats: UserStats)
    requires engine.Valid()
    modifies engine
    ensures engine.Valid()
    ensures var e := Ensured(old(engine.users), uid, now);
      engine.users == e[uid := StreakAfter(e[uid], now)] && stats == StatsOf(uid, engine.users[uid])
  {
    var record := engine.GetUserStats(uid, now);
    stats := StatsOf(uid, record);
  }
}
