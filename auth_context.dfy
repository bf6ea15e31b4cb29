/** The front end's account context: the signed-in user, the local list of
    analysis sessions, the activity log and the credit balance. Record ids
    and timestamps, and the server's replies, are parameters; the activity
    log holds events rather than their rendered messages. */
module AuthContext {
  import opened Wrappers

  /** The user as the server returns it; a missing email or plan is "". */
  datatype User = User(email: string, id: string, plan: string)

  /** What the dashboard hands to addSession. */
  datatype SessionDraft = SessionDraft(title: string, style: string, preview: string)

  /** A session in the local list, with the id and timestamp addSession adds. */
  datatype SavedSession = SavedSession(draft: SessionDraft, id: string, createdAt: string)

  datatype ActivityEvent =
    | LoggedIn(email: string)
    | CreatedAccount(email: string)
    | LoggedOut(email: string)
    | RanSession
    | RedeemedXp(xp: int, credits: real)
    | SpentCredits(amount: real)

  datatype Activity = Activity(id: string, event: ActivityEvent, at: string)

  datatype AuthState = AuthState(
    user: Option<User>,
    sessions: seq<SavedSession>,
    activity: seq<Activity>,
    credits: real)

  const HistoryCap := 100
  const FreeSessionLimit := 8

  /** `[x, ...s].slice(0, cap)`. */
  function Prepend<T>(x: T, s: seq<T>, cap: nat): (r: seq<T>)
    requires cap >= 1
    ensures |r| == if |s| + 1 <= cap then |s| + 1 else cap
    ensures r[0] == x && r[1..] == s[..|r| - 1]
  {
    var full := [x] + s;
    if |full| <= cap then full else full[..cap]
  }

  function MaxReal(a: real, b: real): real {
    if a >= b then a else b
  }

  /** `isAuthenticated`: `Boolean(user)`. */
  predicate Authenticated(st: AuthState) {
    st.user.Some?
  }

  // ---------------------------------------------------------------------------
  // Transitions

  /** `addActivity`: the new record first, at most 100 kept. */
  function WithActivity(st: AuthState, rec: Activity): AuthState {
    st.(activity := Prepend(rec, st.activity, HistoryCap))
  }

  predicate AtFreeLimit(st: AuthState) {
    st.user.Some? && st.user.value.plan == "Free" && |st.sessions| >= FreeSessionLimit
  }

  /** `addSession`: refused on the Free plan at 8 sessions; otherwise the
      session goes first in the list (at most 100 kept) and one activity is
      logged. */
  function WithSession(st: AuthState, draft: SessionDraft, sessionId: string, activityId: string, at: string): AuthState {
    if AtFreeLimit(st) then st
    else
      var saved := SavedSession(draft, sessionId, at);
      WithActivity(st.(sessions := Prepend(saved, st.sessions, HistoryCap)), Activity(activityId, RanSession, at))
  }

  /** `login`: `reply` is the user the server returns, None when the request
      fails (the error propagates before anything changes); on success the
      user is set, the sign-in logged under the email typed, and the server's
      sessions loaded, `loaded` being None when that request fails and is
      ignored. */
  function LoggedInState(st: AuthState, email: string, reply: Option<User>, loaded: Option<seq<SavedSession>>,
                         activityId: string, at: string): AuthState
  {
    match reply
    case None => st
    case Some(u) =>
      var st1 := WithActivity(st.(user := Some(u)), Activity(activityId, LoggedIn(email), at));
      if loaded.Some? then st1.(sessions := loaded.value) else st1
  }

  /** `signup`: like `login`, but it logs the new account and loads no
      sessions. */
  function SignedUpState(st: AuthState, email: string, reply: Option<User>, activityId: string, at: string): AuthState {
    match reply
    case None => st
    case Some(u) => WithActivity(st.(user := Some(u)), Activity(activityId, CreatedAccount(email), at))
  }

  /** `logout`: logs the sign-out only for a user with an email, then forgets
      the user and the local sessions. */
  function LoggedOutState(st: AuthState, activityId: string, at: string): AuthState {
    var st1 :=
      if st.user.Some? && st.user.value.email != "" then
        WithActivity(st, Activity(activityId, LoggedOut(st.user.value.email), at))
      else st;
    st1.(user := None, sessions := [])
  }

  /** `deductCredits`: never below zero. */
  function Deducted(st: AuthState, amount: real, activityId: string, at: string): AuthState {
    WithActivity(st.(credits := MaxReal(st.credits - amount, 0.0)), Activity(activityId, SpentCredits(amount), at))
  }

  /** `/user/redeem-xp`'s reply as the context reads it. */
  datatype RedeemReply = RedeemReply(success: bool, newXp: Option<int>, message: Option<string>)

  datatype RedeemResult = RedeemResult(success: bool, newXp: Option<int>, message: Option<string>)

  /** Credits bought by xp points: `(xp / 100) * 0.4`. */
  function CreditsFor(xp: int): real {
    (xp as real / 100.0) * 0.4
  }

  /** `redeemCredits`: without a user nothing happens and nothing is
      returned; a refused redeem changes nothing; an accepted one adds the
      credits and logs it. */
  function Redeemed(st: AuthState, xp: int, reply: RedeemReply, activityId: string, at: string)
    : (AuthState, Option<RedeemResult>)
  {
    if st.user.None? then (st, None)
    else if reply.success then
      var added := CreditsFor(xp);
      (WithActivity(st.(credits := st.credits + added), Activity(activityId, RedeemedXp(xp, added), at)),
       Some(RedeemResult(true, reply.newXp, None)))
    else (st, Some(RedeemResult(false, None, reply.message)))
  }

  /** `updatePlan`: the server's user replaces the signed-in one. */
  function PlanUpdated(st: AuthState, serverUser: User): AuthState {
    if st.user.None? then st else st.(user := Some(serverUser))
  }

  // ---------------------------------------------------------------------------
  // Properties

  /** The activity log keeps its newest 100 records, newest first. */
  lemma ActivityLog(st: AuthState, rec: Activity)
    ensures var a := WithActivity(st, rec).activity;
      && a[0] == rec && 1 <= |a| <= 100
      && (|st.activity| < 100 ==> a == [rec] + st.activity)
      && a[1..] == st.activity[..|a| - 1]
  {
  }

  /** On the Free plan at the limit, nothing changes: no session, no
      activity. */
  lemma FreeLimitRefuses(st: AuthState, draft: SessionDraft, sid: string, aid: string, at: string)
    requires AtFreeLimit(st)
    ensures WithSession(st, draft, sid, aid, at) == st
  {
  }

  /** Below the limit (or on another plan) the session is prepended and
      exactly one activity is logged. */
  lemma AddSessionPrepends(st: AuthState, draft: SessionDraft, sid: string, aid: string, at: string)
    requires !AtFreeLimit(st)
    ensures var st' := WithSession(st, draft, sid, aid, at);
      && st'.sessions[0] == SavedSession(draft, sid, at)
      && |st'.sessions| == (if |st.sessions| < 100 then |st.sessions| + 1 else 100)
      && st'.sessions[1..] == st.sessions[..|st'.sessions| - 1]
      && st'.activity[0] == Activity(aid, RanSession, at)
      && st'.user == st.user && st'.credits == st.credits
  {
  }

  /** A Free user who starts within the limit never holds more than 8 local
      sessions, however many are added. */
  lemma {:induction false} FreeStaysWithinLimit(st: AuthState, drafts: seq<SessionDraft>, sid: string, aid: string, at: string)
    requires st.user.Some? && st.user.value.plan == "Free" && |st.sessions| <= 8
    ensures |AddSessions(st, drafts, sid, aid, at).sessions| <= 8
    decreases |drafts|
  {
    if drafts != [] {
      var st1 := WithSession(st, drafts[0], sid, aid, at);
      assert |st1.sessions| <= 8;
      FreeStaysWithinLimit(st1, drafts[1..], sid, aid, at);
    }
  }

  function AddSessions(st: AuthState, drafts: seq<SessionDraft>, sid: string, aid: string, at: string): AuthState
    decreases |drafts|
  {
    if drafts == [] then st else AddSessions(WithSession(st, drafts[0], sid, aid, at), drafts[1..], sid, aid, at)
  }

  /** Credits never go negative: a deduction the balance covers is exact,
      a larger one empties the balance. */
  lemma DeductFloor(st: AuthState, amount: real, aid: string, at: string)
    ensures var c := Deducted(st, amount, aid, at).credits;
      && c >= 0.0
      && (st.credits >= amount ==> c == st.credits - amount)
      && (st.credits < amount ==> c == 0.0)
  {
  }

  /** An accepted redeem of xp points adds xp / 250 credits; a refused one
      or one without a user leaves the state as it was. */
  lemma RedeemCases(st: AuthState, xp: int, reply: RedeemReply, aid: string, at: string)
    ensures var res := Redeemed(st, xp, reply, aid, at);
      && (st.user.None? ==> res == (st, None))
      && (st.user.Some? && !reply.success ==> res.0 == st && res.1 == Some(RedeemResult(false, None, reply.message)))
      && (st.user.Some? && reply.success ==>
            res.0.credits == st.credits + xp as real / 250.0 && res.1.value.success
            && res.0.user == st.user && res.0.sessions == st.sessions)
  {
  }

  /** A successful sign-in authenticates the server's user and logs exactly
      one record, the sign-in, in front of the old log; the credits are
      untouched, and the local sessions become the server's list when it
      loads and stay as they were otherwise. A failed sign-in changes
      nothing. */
  lemma LoginCases(st: AuthState, email: string, reply: Option<User>, loaded: Option<seq<SavedSession>>,
                   aid: string, at: string)
    ensures var st' := LoggedInState(st, email, reply, loaded, aid, at);
      && (reply.None? ==> st' == st)
      && (reply.Some? ==>
            && Authenticated(st') && st'.user == reply
            && st'.activity[0] == Activity(aid, LoggedIn(email), at)
            && st'.activity[1..] == st.activity[..|st'.activity| - 1]
            && st'.credits == st.credits
            && st'.sessions == (if loaded.Some? then loaded.value else st.sessions))
  {
  }

  /** A successful sign-up authenticates the server's user, logs the new
      account in front of the old log and keeps the sessions and credits; a
      failed one changes nothing. */
  lemma SignupCases(st: AuthState, email: string, reply: Option<User>, aid: string, at: string)
    ensures var st' := SignedUpState(st, email, reply, aid, at);
      && (reply.None? ==> st' == st)
      && (reply.Some? ==>
            && Authenticated(st') && st'.user == reply
            && st'.activity[0] == Activity(aid, CreatedAccount(email), at)
            && st'.activity[1..] == st.activity[..|st'.activity| - 1]
            && st'.sessions == st.sessions && st'.credits == st.credits)
  {
  }

  /** Logging out always signs out and empties the local sessions; the
      activity log grows only for a user with an email. */
  lemma LogoutClears(st: AuthState, aid: string, at: string)
    ensures var st' := LoggedOutState(st, aid, at);
      && !Authenticated(st') && st'.sessions == [] && st'.credits == st.credits
      && (st.user.Some? && st.user.value.email != "" ==> st'.activity[0].event == LoggedOut(st.user.value.email))
      && (st.user.None? || st.user.value.email == "" ==> st'.activity == st.activity)
  {
  }

  // ---------------------------------------------------------------------------
  // The provider

  class AuthStore {
    var user: Option<User>
    var sessions: seq<SavedSession>
    var activity: seq<Activity>
    var credits: real

    function State(): AuthState
      reads this
    {
      AuthState(user, sessions, activity, credits)
    }

    constructor()
      ensures State() == AuthState(None, [], [], 0.0)
    {
      user, sessions, activity, credits := None, [], [], 0.0;
    }

    function IsAuthenticated(): (b: bool)
      reads this
      ensures b <==> user.Some?
    {
      user.Some?
    }

    method AddActivity(rec: Activity)
      modifies this
      ensures State() == WithActivity(old(State()), rec)
    {
      activity := Prepend(rec, activity, HistoryCap);
    }

    method AddSession(draft: SessionDraft, sessionId: string, activityId: string, at: string)
      modifies this
      ensures State() == WithSession(old(State()), draft, sessionId, activityId, at)
    {
      if user.Some? && user.value.plan == "Free" && |sessions| >= FreeSessionLimit {
        return;
      }
      var saved := SavedSession(draft, sessionId, at);
      sessions := Prepend(saved, sessions, HistoryCap);
      AddActivity(Activity(activityId, RanSession, at));
    }

    method Login(email: string, reply: Option<User>, loaded: Option<seq<SavedSession>>, activityId: string, at: string)
      modifies this
      ensures State() == LoggedInState(old(State()), email, reply, loaded, activityId, at)
    {
      if reply.None? {
        return;
      }
      user := reply;
      AddActivity(Activity(activityId, LoggedIn(email), at));
      if loaded.Some? {
        sessions := loaded.value;
      }
    }

    method Signup(email: string, reply: Option<User>, activityId: string, at: string)
      modifies this
      ensures State() == SignedUpState(old(State()), email, reply, activityId, at)
    {
      if reply.None? {
        return;
      }
      user := reply;
      AddActivity(Activity(activityId, CreatedAccount(email), at));
    }

    method Logout(activityId: string, at: string)
      modifies this
      ensures State() == LoggedOutState(old(State()), activityId, at)
    {
      if user.Some? && user.value.email != "" {
        AddActivity(Activity(activityId, LoggedOut(user.value.email), at));
      }
      user := None;
      sessions := [];
    }

    method DeductCredits(amount: real, activityId: string, at: string)
      modifies this
      ensures State() == Deducted(old(State()), amount, activityId, at)
    {
      credits := MaxReal(credits - amount, 0.0);
      AddActivity(Activity(activityId, SpentCredits(amount), at));
    }

    method RedeemCredits(xp: int, reply: RedeemReply, activityId: string, at: string)
      returns (result: Option<RedeemResult>)
      modifies this
      ensures (State(), result) == Redeemed(old(State()), xp, reply, activityId, at)
    {
      if user.None? {
        return None;
      }
      if reply.success {
        var added := CreditsFor(xp);
        credits := credits + added;
        AddActivity(Activity(activityId, RedeemedXp(xp, added), at));
        return Some(RedeemResult(true, reply.newXp, None));
      }
      return Some(RedeemResult(false, None, reply.message));
    }

    method UpdatePlan(serverUser: User)
      modifies this
      ensures State() == PlanUpdated(old(State()), serverUser)
    {
      if user.None? {
        return;
      }
      user := Some(serverUser);
    }
  }
}
