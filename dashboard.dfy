/** The writing dashboard: running an analysis and recording it as a session,
    and choosing a plan against the credit balance. The analysis reply and
    the server's updated user are parameters; None stands for a request that
    failed. */
module Dashboard {
  import opened Wrappers
  import opened Strings
  import opened AuthContext

  const PreviewLength := 160
  const TitleWords := 6
  const Untitled := "Untitled session"

  /** `text.split(' ').slice(0, 6).join(' ') || 'Untitled session'`. */
  function SessionTitle(text: string): string {
    var head := JoinWith(Slice(SplitOn(text, ' '), TitleWords), " ");
    if head == [] then Untitled else head
  }

  /** For any text that passes the blank check, the title is the text up to
      its sixth single space: never the placeholder, and a prefix of the
      text. */
  lemma TitleOfText(text: string)
    requires !AllIn(JsSpace, text)
    ensures SessionTitle(text) == JoinWith(Slice(SplitOn(text, ' '), TitleWords), " ")
    ensures IsPrefix(SessionTitle(text), text)
  {
    var ps := SplitOn(text, ' ');
    SplitOnJoinNonEmpty(text, ' ', TitleWords);
    assert Slice(ps, TitleWords) == ps[..if TitleWords <= |ps| then TitleWords else |ps|];
    SplitOnPrefix(text, ' ', |Slice(ps, TitleWords)|);
  }

  /** The session the dashboard records for one analysis. */
  function DraftFor(text: string, style: string, output: string): (d: SessionDraft)
    ensures |d.preview| <= PreviewLength && IsPrefix(d.preview, output)
    ensures d.style == style
  {
    SessionDraft(SessionTitle(text), style, Slice(output, PreviewLength))
  }

  /** `planPrices[planName] || 0`. */
  function PlanPrice(planName: string): real {
    match planName
    case "Free" => 0.0
    case "Pro" => 12.0
    case "Team" => 39.0
    case _ => 0.0
  }

  /** `choosePlan`: nothing without a user or when a paid plan is not
      covered; otherwise the price is deducted first (only when it is
      positive), then the plan is updated if the server answers. */
  function ChosenPlan(st: AuthState, planName: string, reply: Option<User>, activityId: string, at: string): AuthState {
    if st.user.None? then st
    else
      var price := PlanPrice(planName);
      if price > 0.0 && st.credits < price then st
      else
        var paid := if price > 0.0 then Deducted(st, price, activityId, at) else st;
        match reply
        case Some(u) => PlanUpdated(paid, u)
        case None => paid
  }

  predicate IsCurrentPlan(st: AuthState, planName: string) {
    st.user.Some? && st.user.value.plan == planName
  }

  /** The plan card's button: disabled on the current plan. */
  function ClickPlan(st: AuthState, planName: string, reply: Option<User>, activityId: string, at: string): AuthState {
    if IsCurrentPlan(st, planName) then st else ChosenPlan(st, planName, reply, activityId, at)
  }

  /** A paid plan the balance does not cover is refused outright; the free
      plan never costs anything; a covered paid plan costs exactly its
      price, and the price stays paid when the plan update then fails. */
  lemma ChoosePlanCases(st: AuthState, planName: string, reply: Option<User>, aid: string, at: string)
    ensures var st' := ChosenPlan(st, planName, reply, aid, at);
      var price := PlanPrice(planName);
      && (st.user.None? ==> st' == st)
      && (st.user.Some? && price > 0.0 && st.credits < price ==> st' == st)
      && (st.user.Some? && price == 0.0 ==> st'.credits == st.credits && st'.activity == st.activity)
      && (st.user.Some? && price > 0.0 && st.credits >= price ==>
            st'.credits == st.credits - price && st'.activity[0].event == SpentCredits(price))
      && (st.user.Some? && (price == 0.0 || st.credits >= price) ==>
            st'.user == (if reply.Some? then reply else st.user))
      && st'.sessions == st.sessions
  {
    if st.user.Some? && PlanPrice(planName) > 0.0 && st.credits >= PlanPrice(planName) {
      DeductFloor(st, PlanPrice(planName), aid, at);
    }
  }

  /** Credits never go negative through a plan purchase. */
  lemma ChoosePlanKeepsCredits(st: AuthState, planName: string, reply: Option<User>, aid: string, at: string)
    requires st.credits >= 0.0
    ensures ChosenPlan(st, planName, reply, aid, at).credits >= 0.0
  {
    ChoosePlanCases(st, planName, reply, aid, at);
  }

  /** Clicking the card of the current plan does nothing. */
  lemma CurrentPlanInert(st: AuthState, planName: string, reply: Option<User>, aid: string, at: string)
    requires IsCurrentPlan(st, planName)
    ensures ClickPlan(st, planName, reply, aid, at) == st
  {
  }

  class DashboardPage {
    const auth: AuthStore
    var text: string
    var style: string
    var loading: bool
    var result: Option<string>

    constructor(store: AuthStore)
      ensures auth == store && text == "" && style == "clear" && !loading && result.None?
    {
      auth := store;
      text, style, loading, result := "", "clear", false, None;
    }

    /** `handleAnalyze`: a blank text sends nothing; otherwise the reply's
        output becomes the result and a session titled from the text is
        added; a failed request adds nothing. Loading is off afterwards. */
    method HandleAnalyze(output: Option<string>, sessionId: string, activityId: string, at: string)
      modifies this, auth
      ensures text == old(text) && style == old(style)
      ensures AllIn(JsSpace, text) ==> result == old(result) && loading == old(loading) && auth.State() == old(auth.State())
      ensures !AllIn(JsSpace, text) ==>
        && !loading
        && result == (if output.Some? then output else old(result))
        && auth.State() == (if output.Some? then WithSession(old(auth.State()), DraftFor(text, style, output.value), sessionId, activityId, at)
                            else old(auth.State()))
    {
      if AllIn(JsSpace, text) {
        return;
      }
      loading := true;
      if output.Some? {
        result := output;
        auth.AddSession(DraftFor(text, style, output.value), sessionId, activityId, at);
      }
      loading := false;
    }

    method ChoosePlan(planName: string, reply: Option<User>, activityId: string, at: string)
      modifies auth
      ensures auth.State() == ChosenPlan(old(auth.State()), planName, reply, activityId, at)
    {
      if auth.user.None? {
        return;
      }
      var price := PlanPrice(planName);
      if price > 0.0 && auth.credits < price {
        return;
      }
      if price > 0.0 {
        auth.DeductCredits(price, activityId, at);
      }
      if reply.Some? {
        auth.UpdatePlan(reply.value);
      }
    }
  }
}
