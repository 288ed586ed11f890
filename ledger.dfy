/**
 * The client-side credit ledger: accounts, plan purchases, and the values
 * derived from them (balance, active plan, login lock), together with the
 * pure effect of logging in and of buying a plan.
 *
 * Instants are milliseconds since the epoch. A login date is the number of
 * the UTC calendar day, `now / DAY_MS`, which is what the date part of an ISO
 * timestamp names. "30 days" is a constant offset of 30 * DAY_MS.
 */
module Ledger {
  import opened Wrappers
  import Plans

  const DAY_MS: int := 86400000
  /** Logins allowed to a free account within the window before it is locked. */
  const LOGIN_LIMIT: nat := 6
  /** Length of the login window, in days. */
  const LOGIN_PERIOD_DAYS: nat := 30
  /** Lifetime of a subscription purchase, in days. */
  const SUBSCRIPTION_DAYS: nat := 30

  const FREE: string := "Free"
  const FREE_TRIAL: string := "Free Trial"
  const BOOSTER_PACK: string := "Booster Pack"
  const FREE_TRIAL_CREDITS: nat := 20

  datatype PlanPurchase = PlanPurchase(
    id: string,
    planName: string,
    purchaseDate: int,
    creditsAdded: nat,
    creditsRemaining: nat)

  datatype User = User(
    email: string,
    planHistory: seq<PlanPurchase>,
    lastLoginDate: int,
    loginHistory: seq<int>)

  /** What a generation produces; it decides the price. */
  datatype MediaType = Image | Video

  /** `getCreditCost`: a video costs 50 credits, anything else 20. */
  function GetCreditCost(kind: MediaType): nat {
    if kind == Video then 50 else 20
  }

  /** The active plan as shown to the user: a name and its tier. */
  datatype PlanLabel = PlanLabel(name: string, tier: nat)

  /** `PLAN_TIERS`; `None` is the `undefined` of an unknown name. */
  function PlanTier(name: string): Option<nat> {
    if name == FREE || name == FREE_TRIAL then Some(0)
    else if name == BOOSTER_PACK then Some(1)
    else if name == "Pro" then Some(2)
    else if name == "Mega" then Some(3)
    else None
  }

  /** `PLAN_TIERS[a] > PLAN_TIERS[b]`: any comparison with `undefined` is false. */
  predicate TierAbove(a: string, b: string) {
    PlanTier(a).Some? && PlanTier(b).Some? && PlanTier(a).value > PlanTier(b).value
  }

  /** The calendar day of an instant (the date part of its ISO string). */
  function Today(now: int): int {
    now / DAY_MS
  }

  /** Booster packs and the free trial never expire. */
  predicate NeverExpires(p: PlanPurchase) {
    p.planName == BOOSTER_PACK || p.planName == FREE_TRIAL
  }

  function ExpiryDate(p: PlanPurchase): int {
    p.purchaseDate + SUBSCRIPTION_DAYS * DAY_MS
  }

  /** The ledger's filter: non-expiring kinds always, others while `now < purchase + 30 days`. */
  predicate IsActive(p: PlanPurchase, now: int) {
    NeverExpires(p) || now < ExpiryDate(p)
  }

  /** Sum of `creditsRemaining` over the active purchases. */
  function TotalCredits(h: seq<PlanPurchase>, now: int): nat {
    if h == [] then 0
    else (if IsActive(h[0], now) then h[0].creditsRemaining else 0) + TotalCredits(h[1..], now)
  }

  /** The active purchases that compete for the plan label (neither booster nor trial), in history order. */
  function TierCandidates(h: seq<PlanPurchase>, now: int): (r: seq<PlanPurchase>)
    ensures forall p :: p in r <==> p in h && IsActive(p, now) && !NeverExpires(p)
  {
    if h == [] then []
    else (if IsActive(h[0], now) && !NeverExpires(h[0]) then [h[0]] else []) + TierCandidates(h[1..], now)
  }

  /** The `reduce` that keeps the running maximum; a later purchase replaces it only on a strictly higher tier. */
  function HighestTier(s: seq<PlanPurchase>, max: string): (r: string)
    requires PlanTier(max).Some?
    ensures PlanTier(r).Some? && PlanTier(r).value >= PlanTier(max).value
    ensures forall p :: p in s && PlanTier(p.planName).Some? ==> PlanTier(p.planName).value <= PlanTier(r).value
    ensures r == max || exists p :: p in s && p.planName == r
  {
    if s == [] then max
    else HighestTier(s[1..], if TierAbove(s[0].planName, max) then s[0].planName else max)
  }

  /** `activePlan`: Free when nobody is logged in, else the highest-tier active subscription. */
  function CurrentPlan(user: Option<User>, now: int): PlanLabel {
    if user.None? then PlanLabel(FREE, 0)
    else
      var name := HighestTier(TierCandidates(user.value.planHistory, now), FREE);
      PlanLabel(name, PlanTier(name).value)
  }

  /** `totalCredits`: 0 when nobody is logged in. */
  function Balance(user: Option<User>, now: int): nat {
    if user.None? then 0 else TotalCredits(user.value.planHistory, now)
  }

  /** Login dates at or after `now - 30 days` (a date string parses to that day's UTC midnight). */
  function RecentLogins(days: seq<int>, now: int): (r: seq<int>)
    ensures |r| <= |days|
    ensures forall d :: d in r <==> d in days && d * DAY_MS >= now - LOGIN_PERIOD_DAYS * DAY_MS
    ensures NoDuplicates(days) ==> NoDuplicates(r)
  {
    if days == [] then []
    else
      var rest := RecentLogins(days[1..], now);
      if days[0] * DAY_MS >= now - LOGIN_PERIOD_DAYS * DAY_MS then
        var r := [days[0]] + rest;
        assert NoDuplicates(days) ==> NoDuplicates(r) by {
          if NoDuplicates(days) {
            assert NoDuplicates(days[1..]) by {
              forall i, j | 0 <= i < j < |days| - 1 ensures days[1..][i] != days[1..][j] {
                assert days[1..][i] == days[i + 1] && days[1..][j] == days[j + 1];
              }
            }
            assert days[0] !in days[1..];
            forall i, j | 0 <= i < j < |r| ensures r[i] != r[j] {
              assert r[j] == rest[j - 1];
              if i > 0 { assert r[i] == rest[i - 1]; }
            }
          }
        }
        r
      else
        assert NoDuplicates(days) ==> NoDuplicates(days[1..]) by {
          if NoDuplicates(days) {
            forall i, j | 0 <= i < j < |days| - 1 ensures days[1..][i] != days[1..][j] {
              assert days[1..][i] == days[i + 1] && days[1..][j] == days[j + 1];
            }
          }
        }
        rest
  }

  /** `isLoginLocked`: a free-tier account that logged in on more than LOGIN_LIMIT recent dates. */
  predicate LoginLocked(user: Option<User>, now: int) {
    && user.Some?
    && CurrentPlan(user, now).tier == 0
    && |RecentLogins(user.value.loginHistory, now)| > LOGIN_LIMIT
  }

  // ---------------------------------------------------------------------------
  // Invariants of a stored account

  predicate WellFormedHistory(h: seq<PlanPurchase>) {
    forall i :: 0 <= i < |h| ==> h[i].creditsRemaining <= h[i].creditsAdded
  }

  predicate NoDuplicates(s: seq<int>) {
    forall i, j :: 0 <= i < j < |s| ==> s[i] != s[j]
  }

  /** What every account the ledger writes satisfies. */
  predicate Consistent(u: User) {
    && WellFormedHistory(u.planHistory)
    && NoDuplicates(u.loginHistory)
    && u.lastLoginDate in u.loginHistory
  }

  // ---------------------------------------------------------------------------
  // Login and purchase, as functions of the stored account

  /** The account created on a first login: one free-trial purchase and one login date. */
  function NewAccount(email: string, now: int, freshId: string): User {
    User(email, [PlanPurchase(freshId, FREE_TRIAL, now, FREE_TRIAL_CREDITS, FREE_TRIAL_CREDITS)],
         Today(now), [Today(now)])
  }

  /** A returning user's daily bookkeeping: nothing on the same day, else record the new day once. */
  function RecordLogin(u: User, today: int): User {
    if u.lastLoginDate == today then u
    else
      var history := if today in u.loginHistory then u.loginHistory else u.loginHistory + [today];
      u.(loginHistory := history, lastLoginDate := today)
  }

  /** `loadUser`'s result for `email`, given the stored accounts. */
  function LoggedIn(accounts: map<string, User>, email: string, now: int, freshId: string): User {
    if email in accounts then RecordLogin(accounts[email], Today(now))
    else NewAccount(email, now, freshId)
  }

  /** `purchasePlan`'s new account: one purchase appended, remaining = added = the plan's grant. */
  function Purchased(u: User, plan: Plans.Plan, now: int, freshId: string): User {
    u.(planHistory := u.planHistory
         + [PlanPurchase(freshId, plan.name, now, plan.generationCredits, plan.generationCredits)])
  }

  // ---------------------------------------------------------------------------
  // Properties

  /** A first login yields an account holding exactly the 20 trial credits, forever, on the Free tier, unlocked. */
  lemma NewAccountSeed(email: string, now: int, freshId: string, t: int)
    ensures var u := NewAccount(email, now, freshId);
      && Consistent(u)
      && |u.planHistory| == 1 && u.planHistory[0].planName == FREE_TRIAL
      && u.loginHistory == [Today(now)] && u.lastLoginDate == Today(now)
      && Balance(Some(u), t) == FREE_TRIAL_CREDITS
      && CurrentPlan(Some(u), t) == PlanLabel(FREE, 0)
      && !LoginLocked(Some(u), t)
  {
    var u := NewAccount(email, now, freshId);
    assert u.planHistory[1..] == [];
    assert IsActive(u.planHistory[0], t);
    assert TotalCredits(u.planHistory, t) == FREE_TRIAL_CREDITS + TotalCredits([], t);
    assert TierCandidates(u.planHistory, t) == [];
  }

  /** A second login on the same day changes nothing. */
  lemma SameDayLoginIsIdempotent(u: User, today: int)
    ensures RecordLogin(RecordLogin(u, today), today) == RecordLogin(u, today)
    ensures u.lastLoginDate == today ==> RecordLogin(u, today) == u
  {
  }

  /**
   * A stored record without login dates (read as `[]` by the `|| []`
   * fallback): logged in again on its last login day it is kept as it is,
   * still without login dates; on any other day it gets today as its only one.
   */
  lemma LoginWithoutHistory(u: User, today: int)
    requires u.loginHistory == []
    ensures u.lastLoginDate == today ==> RecordLogin(u, today) == u && !Consistent(u)
    ensures u.lastLoginDate != today ==>
      RecordLogin(u, today) == u.(loginHistory := [today], lastLoginDate := today)
  {
  }

  /** A login on a new day appends the day at most once, keeps the purchases, and preserves consistency. */
  lemma RecordLoginKeepsConsistent(u: User, today: int)
    requires Consistent(u)
    ensures var r := RecordLogin(u, today);
      && Consistent(r)
      && r.email == u.email && r.planHistory == u.planHistory
      && r.lastLoginDate == today && today in r.loginHistory
      && (r.loginHistory == u.loginHistory || r.loginHistory == u.loginHistory + [today])
  {
    var r := RecordLogin(u, today);
    if u.lastLoginDate != today && today !in u.loginHistory {
      forall i, j | 0 <= i < j < |r.loginHistory| ensures r.loginHistory[i] != r.loginHistory[j] {
        if j == |u.loginHistory| {
          assert r.loginHistory[i] == u.loginHistory[i];
        }
      }
    }
  }

  /** `loadUser` always produces a consistent account keyed by the email it was given. */
  lemma LoggedInConsistent(accounts: map<string, User>, email: string, now: int, freshId: string)
    requires forall e :: e in accounts ==> accounts[e].email == e && Consistent(accounts[e])
    ensures var u := LoggedIn(accounts, email, now, freshId);
      Consistent(u) && u.email == email && u.lastLoginDate == Today(now)
  {
    if email in accounts {
      RecordLoginKeepsConsistent(accounts[email], Today(now));
    } else {
      NewAccountSeed(email, now, freshId, now);
    }
  }

  lemma {:induction false} TotalCreditsAppend(h: seq<PlanPurchase>, p: PlanPurchase, now: int)
    ensures TotalCredits(h + [p], now) == TotalCredits(h, now) + (if IsActive(p, now) then p.creditsRemaining else 0)
  {
    if h != [] {
      assert (h + [p])[1..] == h[1..] + [p];
      TotalCreditsAppend(h[1..], p, now);
    }
  }

  /**
   * Changing one purchase's remaining credits changes the balance by exactly
   * that difference when the purchase is active, and not at all when it is not.
   */
  lemma {:induction false} TotalCreditsUpdate(h: seq<PlanPurchase>, k: nat, rem: nat, now: int)
    requires k < |h|
    ensures TotalCredits(h[k := h[k].(creditsRemaining := rem)], now)
            == TotalCredits(h, now) - (if IsActive(h[k], now) then h[k].creditsRemaining - rem else 0)
  {
    var h' := h[k := h[k].(creditsRemaining := rem)];
    if k > 0 {
      assert h'[1..] == h[1..][k - 1 := h[1..][k - 1].(creditsRemaining := rem)];
      TotalCreditsUpdate(h[1..], k - 1, rem, now);
    } else {
      assert h'[1..] == h[1..];
    }
  }

  /** A balance with every active purchase at zero is zero. */
  lemma {:induction false} TotalCreditsZero(h: seq<PlanPurchase>, now: int)
    requires forall i :: 0 <= i < |h| && IsActive(h[i], now) ==> h[i].creditsRemaining == 0
    ensures TotalCredits(h, now) == 0
  {
    if h != [] {
      TotalCreditsZero(h[1..], now);
    }
  }

  /** A purchase keeps every earlier purchase, keeps the account consistent, and raises the balance by the grant. */
  lemma PurchaseAddsGrant(u: User, plan: Plans.Plan, now: int, freshId: string)
    ensures var r := Purchased(u, plan, now, freshId);
      && (Consistent(u) ==> Consistent(r))
      && r.email == u.email && r.loginHistory == u.loginHistory && r.lastLoginDate == u.lastLoginDate
      && |r.planHistory| == |u.planHistory| + 1 && r.planHistory[..|u.planHistory|] == u.planHistory
      && Balance(Some(r), now) == Balance(Some(u), now) + plan.generationCredits
  {
    var r := Purchased(u, plan, now, freshId);
    assert r.planHistory[..|u.planHistory|] == u.planHistory;
    TotalCreditsAppend(u.planHistory, r.planHistory[|u.planHistory|], now);
  }

  /** Once 30 days have passed, a purchased subscription no longer contributes to the balance. */
  lemma PurchasedSubscriptionExpires(u: User, plan: Plans.Plan, now: int, freshId: string, t: int)
    requires plan.name != BOOSTER_PACK && plan.name != FREE_TRIAL
    requires t >= now + SUBSCRIPTION_DAYS * DAY_MS
    ensures Balance(Some(Purchased(u, plan, now, freshId)), t) == Balance(Some(u), t)
  {
    var r := Purchased(u, plan, now, freshId);
    TotalCreditsAppend(u.planHistory, r.planHistory[|u.planHistory|], t);
  }

  /** A subscription purchase counts toward the balance exactly before its expiry instant. */
  lemma {:induction false} SubscriptionContribution(h: seq<PlanPurchase>, k: nat, now: int)
    requires k < |h| && !NeverExpires(h[k])
    ensures now < ExpiryDate(h[k]) ==>
      TotalCredits(h, now) == TotalCredits(h[k := h[k].(creditsRemaining := 0)], now) + h[k].creditsRemaining
    ensures now >= ExpiryDate(h[k]) ==>
      TotalCredits(h, now) == TotalCredits(h[k := h[k].(creditsRemaining := 0)], now)
  {
    TotalCreditsUpdate(h, k, 0, now);
  }

  /** The label is the highest tier among active subscriptions, and its tier is that name's tier. */
  lemma ActivePlanIsHighestActiveSubscription(u: User, now: int)
    ensures var shown := CurrentPlan(Some(u), now);
      && PlanTier(shown.name) == Some(shown.tier)
      && (shown.name == FREE || exists p :: p in u.planHistory && IsActive(p, now) && !NeverExpires(p) && p.planName == shown.name)
      && forall p :: p in u.planHistory && IsActive(p, now) && !NeverExpires(p) && PlanTier(p.planName).Some? ==>
           PlanTier(p.planName).value <= shown.tier
  {
  }

  /** An active Pro or Mega purchase always lifts the login lock; a booster pack does not count as a plan. */
  lemma PaidSubscriptionUnlocks(u: User, now: int, p: PlanPurchase)
    requires p in u.planHistory && IsActive(p, now) && (p.planName == "Pro" || p.planName == "Mega")
    ensures CurrentPlan(Some(u), now).tier >= 2
    ensures !LoginLocked(Some(u), now)
  {
    ActivePlanIsHighestActiveSubscription(u, now);
  }

  /** A duplicate-free sequence has as many distinct elements as it has entries. */
  lemma {:induction false} DistinctCount(s: seq<int>)
    requires NoDuplicates(s)
    ensures |set d | d in s| == |s|
  {
    if s != [] {
      assert NoDuplicates(s[1..]) by {
        forall i, j | 0 <= i < j < |s| - 1 ensures s[1..][i] != s[1..][j] {
          assert s[1..][i] == s[i + 1] && s[1..][j] == s[j + 1];
        }
      }
      DistinctCount(s[1..]);
      assert (set d | d in s) == {s[0]} + (set d | d in s[1..]) by {
        assert s == [s[0]] + s[1..];
      }
      assert s[0] !in s[1..];
    }
  }

  /**
   * The throttle in both directions: a stored account is locked exactly when
   * it is on tier 0 and more than LOGIN_LIMIT distinct login dates lie in the
   * 30-day window.
   */
  lemma LoginLockedIff(u: User, now: int)
    requires Consistent(u)
    ensures LoginLocked(Some(u), now) <==>
      && CurrentPlan(Some(u), now).tier == 0
      && |set d | d in u.loginHistory && d * DAY_MS >= now - LOGIN_PERIOD_DAYS * DAY_MS| > LOGIN_LIMIT
  {
    var r := RecentLogins(u.loginHistory, now);
    DistinctCount(r);
    assert (set d | d in r) == (set d | d in u.loginHistory && d * DAY_MS >= now - LOGIN_PERIOD_DAYS * DAY_MS);
  }

  /** The lock needs more than LOGIN_LIMIT recorded dates inside the window. */
  lemma LockNeedsRecentLogins(u: User, now: int)
    requires LoginLocked(Some(u), now)
    ensures |u.loginHistory| > LOGIN_LIMIT
    ensures CurrentPlan(Some(u), now).tier == 0
  {
  }
}
