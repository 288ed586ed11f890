/**
 * The purchase-return page: a `processing -> success | error` state machine
 * driven by the checkout's return parameters (`plan_id`, `email`), which
 * applies the purchase to the ledger at most once per visit.
 *
 * Each run of the page's first effect is one call of `RunReturnEffect`; the
 * 3-second session timer firing is one call of `SessionTimeout`.
 */
module PurchaseSuccess {
  import opened Wrappers
  import opened Ledger
  import Plans
  import UserPlanContext

  /** A repeat of the same plan within this many milliseconds is taken as already applied. */
  const DUPLICATE_WINDOW_MS: int := 60000

  const NO_PLAN_MESSAGE: string := "No plan specified in the return URL."
  const SESSION_MESSAGE: string :=
    "Could not verify your session. Please log in and contact support if your plan is not active."

  function InvalidPlanMessage(planId: string): string {
    "Invalid plan ID: " + planId
  }

  datatype Status = Processing | Success | Error

  /** What one run of the return effect decides. */
  datatype Step =
    | Idle                                // the status has already left `processing`
    | Fail(message: string)               // no plan id, or one the catalog does not know
    | AlreadyApplied(plan: Plans.Plan)    // the same plan was bought under a minute ago
    | Apply(plan: Plans.Plan)             // buy it now
    | LogIn(plan: Plans.Plan, email: string)  // no user yet: log in with the returned e-mail
    | Wait(plan: Plans.Plan)              // no user and no e-mail: leave it to the timer

  /** The last purchase is the same plan and was made less than a minute before `now`. */
  predicate IsRecentDuplicate(u: User, plan: Plans.Plan, now: int) {
    && |u.planHistory| > 0
    && u.planHistory[|u.planHistory| - 1].planName == plan.name
    && now - u.planHistory[|u.planHistory| - 1].purchaseDate < DUPLICATE_WINDOW_MS
  }

  function ReturnStep(status: Status, planId: Option<string>, email: Option<string>, user: Option<User>, now: int): Step {
    if status != Processing then Idle
    else if planId.None? || planId.value == "" then Fail(NO_PLAN_MESSAGE)
    else
      match Plans.GetPlanById(planId)
      case None => Fail(InvalidPlanMessage(planId.value))
      case Some(plan) =>
        if user.Some? then
          if IsRecentDuplicate(user.value, plan, now) then AlreadyApplied(plan) else Apply(plan)
        else if email.Some? && email.value != "" then LogIn(plan, email.value)
        else Wait(plan)
  }

  /** The status a step leaves behind. */
  function StatusAfter(status: Status, step: Step): Status {
    match step
    case Idle => status
    case Fail(_) => Error
    case AlreadyApplied(_) => Success
    case Apply(_) => Success
    case LogIn(_, _) => Processing
    case Wait(_) => Processing
  }

  /**
   * Only a catalog entry named by the returned id is ever applied; a missing
   * or unknown id fails with its message, before any user or e-mail is consulted.
   */
  lemma StepAppliesOnlyCatalogPlans(planId: Option<string>, email: Option<string>, user: Option<User>, now: int)
    ensures var step := ReturnStep(Processing, planId, email, user, now);
      && (planId.None? || planId == Some("") ==> step == Fail(NO_PLAN_MESSAGE))
      && (step.AlreadyApplied? || step.Apply? || step.LogIn? || step.Wait? ==>
            step.plan in Plans.PricingPlans && planId == Some(step.plan.id))
      && (planId.Some? && planId.value != "" && (forall p :: p in Plans.PricingPlans ==> p.id != planId.value) ==>
            step == Fail(InvalidPlanMessage(planId.value)))
  {
  }

  /** Once settled, the page never changes status again and never touches the ledger. */
  lemma SettledIsAbsorbing(status: Status, planId: Option<string>, email: Option<string>, user: Option<User>, now: int)
    requires status != Processing
    ensures ReturnStep(status, planId, email, user, now) == Idle
    ensures StatusAfter(status, Idle) == status
  {
  }

  /**
   * Applying a catalog plan and running the effect again within the minute is
   * recognised as a repeat: the second run reports success without buying.
   */
  lemma RepeatWithinMinuteIsSkipped(u: User, plan: Plans.Plan, bought: int, freshId: string, email: Option<string>, now: int)
    requires plan in Plans.PricingPlans
    requires bought <= now < bought + DUPLICATE_WINDOW_MS
    ensures ReturnStep(Processing, Some(plan.id), email, Some(Purchased(u, plan, bought, freshId)), now)
            == AlreadyApplied(plan)
  {
    Plans.CatalogLookupRoundTrip();
  }

  /** With a user and no recent repeat, the run applies the plan and succeeds. */
  lemma FreshPurchaseIsApplied(u: User, plan: Plans.Plan, email: Option<string>, now: int)
    requires plan in Plans.PricingPlans && !IsRecentDuplicate(u, plan, now)
    ensures ReturnStep(Processing, Some(plan.id), email, Some(u), now) == Apply(plan)
    ensures StatusAfter(Processing, Apply(plan)) == Success
  {
    Plans.CatalogLookupRoundTrip();
  }

  class PurchaseSuccessPage {
    const ledger: UserPlanContext.UserPlanProvider
    const planIdParam: Option<string>
    const emailParam: Option<string>
    var status: Status
    var errorMessage: string
    var purchasedPlan: Option<Plans.Plan>

    constructor (ledger: UserPlanContext.UserPlanProvider, planIdParam: Option<string>, emailParam: Option<string>)
      ensures this.ledger == ledger && this.planIdParam == planIdParam && this.emailParam == emailParam
      ensures status == Processing && errorMessage == "" && purchasedPlan.None?
    {
      this.ledger := ledger;
      this.planIdParam := planIdParam;
      this.emailParam := emailParam;
      status := Processing;
      errorMessage := "";
      purchasedPlan := None;
    }

    /** One run of the return effect. */
    method RunReturnEffect(now: int, freshId: string) returns (step: Step)
      requires ledger.Valid()
      modifies this, ledger
      ensures ledger.Valid()
      ensures step == ReturnStep(old(status), planIdParam, emailParam, old(ledger.user), now)
      ensures status == StatusAfter(old(status), step)
      ensures errorMessage == if step.Fail? then step.message else old(errorMessage)
      ensures purchasedPlan == if step.Idle? || step.Fail? then old(purchasedPlan) else Some(step.plan)
      ensures step.Apply? ==>
        && ledger.user == Some(Purchased(old(ledger.user).value, step.plan, now, freshId))
        && ledger.accounts == old(ledger.accounts)[ledger.user.value.email := ledger.user.value]
        && ledger.sessionEmail == old(ledger.sessionEmail)
        && ledger.storedLastUsedEmail == old(ledger.storedLastUsedEmail) && ledger.lastUsedEmail == old(ledger.lastUsedEmail)
      ensures step.LogIn? && ledger.hasStorage ==>
        && ledger.user == Some(LoggedIn(old(ledger.accounts), step.email, now, freshId))
        && ledger.accounts == old(ledger.accounts)[step.email := ledger.user.value]
        && ledger.sessionEmail == Some(step.email)
        && ledger.storedLastUsedEmail == Some(step.email) && ledger.lastUsedEmail == Some(step.email)
      ensures !step.Apply? && !(step.LogIn? && ledger.hasStorage) ==>
        ledger.user == old(ledger.user) && ledger.accounts == old(ledger.accounts)
        && ledger.sessionEmail == old(ledger.sessionEmail)
        && ledger.storedLastUsedEmail == old(ledger.storedLastUsedEmail) && ledger.lastUsedEmail == old(ledger.lastUsedEmail)
      ensures ledger.isPlanModalOpen == old(ledger.isPlanModalOpen)
    {
      step := ReturnStep(status, planIdParam, emailParam, ledger.user, now);
      if status != Processing { return; }
      if planIdParam.None? || planIdParam.value == "" {
        errorMessage := NO_PLAN_MESSAGE;
        status := Error;
        return;
      }
      var plan := Plans.GetPlanById(planIdParam);
      if plan.None? {
        errorMessage := InvalidPlanMessage(planIdParam.value);
        status := Error;
        return;
      }
      purchasedPlan := plan;
      if ledger.user.Some? {
        if IsRecentDuplicate(ledger.user.value, plan.value, now) {
          status := Success;
          return;
        }
        ledger.PurchasePlan(plan.value, now, freshId);
        status := Success;
      } else if emailParam.Some? && emailParam.value != "" {
        ledger.Login(emailParam.value, now, freshId);
      }
    }

    /** The 3-second timer: still processing with nobody logged in is an error. */
    method SessionTimeout()
      modifies this
      ensures status == if old(status) == Processing && ledger.user.None? then Error else old(status)
      ensures errorMessage == if old(status) == Processing && ledger.user.None? then SESSION_MESSAGE else old(errorMessage)
      ensures purchasedPlan == old(purchasedPlan)
    {
      if status != Processing { return; }
      if ledger.user.None? {
        errorMessage := SESSION_MESSAGE;
        status := Error;
      }
    }
  }

  /**
   * A return with a known plan and an e-mail, before any session is loaded:
   * the first run logs in, the second applies the plan once, and the page
   * then stays at success.
   */
  method ReturnFlow(ledger: UserPlanContext.UserPlanProvider, plan: Plans.Plan, email: string, now: int, freshId: string)
    returns (page: PurchaseSuccessPage)
    requires ledger.Valid() && ledger.hasStorage && ledger.user.None?
    requires plan in Plans.PricingPlans && email != ""
    requires email !in ledger.accounts
    modifies ledger
    ensures page.status == Success
    ensures ledger.user.Some? && |ledger.user.value.planHistory| == 2
    ensures ledger.user.value.planHistory[0].planName == FREE_TRIAL
    ensures ledger.user.value.planHistory[1].planName == plan.name
  {
    page := new PurchaseSuccessPage(ledger, Some(plan.id), Some(email));
    Plans.CatalogLookupRoundTrip();
    var first := page.RunReturnEffect(now, freshId + "-trial");
    assert first == LogIn(plan, email);
    assert ledger.user.value.planHistory[0].planName == FREE_TRIAL;
    assert !IsRecentDuplicate(ledger.user.value, plan, now) by {
      assert plan.name != FREE_TRIAL;
    }
    var second := page.RunReturnEffect(now, freshId);
    assert second == Apply(plan);
    var third := page.RunReturnEffect(now, freshId);
    assert third == Idle;
  }
}
