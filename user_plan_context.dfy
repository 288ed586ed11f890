/**
 * The ledger's state holder (the `UserPlanProvider`): the persisted accounts,
 * the current-session pointer and the logged-in user, and the operations that
 * replace them.
 *
 * Browser storage is the map `accounts` (the users record) plus the two
 * e-mail slots; `hasStorage` says whether storage exists at all. A fresh
 * purchase id is a parameter, and so is the current instant.
 */
module UserPlanContext {
  import opened Wrappers
  import opened Ledger
  import Deduction
  import Plans

  class UserPlanProvider {
    const hasStorage: bool
    /** The persisted users record, keyed by e-mail. */
    var accounts: map<string, User>
    /** The persisted "last user" slot: the current session. */
    var sessionEmail: Option<string>
    /** The persisted "last used e-mail" slot. */
    var storedLastUsedEmail: Option<string>
    /** In-memory state. */
    var lastUsedEmail: Option<string>
    var user: Option<User>
    var isPlanModalOpen: bool

    ghost predicate Valid()
      reads this
    {
      && (forall e :: e in accounts ==> accounts[e].email == e)
      && (user.Some? ==> hasStorage && user.value.email in accounts && accounts[user.value.email] == user.value)
    }

    constructor (hasStorage: bool, accounts: map<string, User>, sessionEmail: Option<string>, storedLastUsedEmail: Option<string>)
      requires forall e :: e in accounts ==> accounts[e].email == e
      ensures Valid()
      ensures this.hasStorage == hasStorage && this.accounts == accounts
      ensures this.sessionEmail == sessionEmail && this.storedLastUsedEmail == storedLastUsedEmail
      ensures lastUsedEmail.None? && user.None? && !isPlanModalOpen
    {
      this.hasStorage := hasStorage;
      this.accounts := accounts;
      this.sessionEmail := sessionEmail;
      this.storedLastUsedEmail := storedLastUsedEmail;
      lastUsedEmail := None;
      user := None;
      isPlanModalOpen := false;
    }

    /** `updateUserInStorage`: write the account under its own e-mail, when storage exists. */
    method Persist(u: User)
      modifies this
      ensures accounts == if hasStorage then old(accounts)[u.email := u] else old(accounts)
      ensures user == old(user) && sessionEmail == old(sessionEmail)
      ensures storedLastUsedEmail == old(storedLastUsedEmail) && lastUsedEmail == old(lastUsedEmail)
      ensures isPlanModalOpen == old(isPlanModalOpen)
    {
      if !hasStorage { return; }
      accounts := accounts[u.email := u];
    }

    /** `loadUser`: create the account on a first login, else record the day; make it the current user. */
    method LoadUser(email: string, now: int, freshId: string)
      requires Valid()
      modifies this
      ensures Valid()
      ensures hasStorage ==> user == Some(LoggedIn(old(accounts), email, now, freshId))
                             && accounts == old(accounts)[email := user.value]
      ensures !hasStorage ==> user == old(user) && accounts == old(accounts)
      ensures sessionEmail == old(sessionEmail) && storedLastUsedEmail == old(storedLastUsedEmail)
      ensures lastUsedEmail == old(lastUsedEmail) && isPlanModalOpen == old(isPlanModalOpen)
    {
      if !hasStorage { return; }
      var today := Today(now);
      var userData: User;
      if email !in accounts {
        userData := NewAccount(email, now, freshId);
      } else {
        userData := accounts[email];
        if userData.lastLoginDate != today {
          if today !in userData.loginHistory {
            userData := userData.(loginHistory := userData.loginHistory + [today]);
          }
          userData := userData.(lastLoginDate := today);
        }
      }
      assert userData == LoggedIn(accounts, email, now, freshId);
      user := Some(userData);
      Persist(userData);
    }

    /** The mount effect: resume the stored session and remember the last used e-mail. */
    method Restore(now: int, freshId: string)
      requires Valid()
      modifies this
      ensures Valid()
      ensures hasStorage && sessionEmail.Some? && sessionEmail.value != "" ==>
        && user == Some(LoggedIn(old(accounts), sessionEmail.value, now, freshId))
        && accounts == old(accounts)[sessionEmail.value := user.value]
      ensures !(hasStorage && sessionEmail.Some? && sessionEmail.value != "") ==>
        user == old(user) && accounts == old(accounts)
      ensures lastUsedEmail ==
        if hasStorage && storedLastUsedEmail.Some? && storedLastUsedEmail.value != "" then storedLastUsedEmail
        else old(lastUsedEmail)
      ensures sessionEmail == old(sessionEmail) && storedLastUsedEmail == old(storedLastUsedEmail)
      ensures isPlanModalOpen == old(isPlanModalOpen)
    {
      if !hasStorage { return; }
      if sessionEmail.Some? && sessionEmail.value != "" {
        LoadUser(sessionEmail.value, now, freshId);
      }
      if storedLastUsedEmail.Some? && storedLastUsedEmail.value != "" {
        lastUsedEmail := storedLastUsedEmail;
      }
    }

    /** `login`: record the e-mail as session and last used, then load the account. Nothing without storage. */
    method Login(email: string, now: int, freshId: string)
      requires Valid()
      modifies this
      ensures Valid()
      ensures hasStorage ==>
        && sessionEmail == Some(email) && storedLastUsedEmail == Some(email) && lastUsedEmail == Some(email)
        && user == Some(LoggedIn(old(accounts), email, now, freshId))
        && accounts == old(accounts)[email := user.value]
      ensures !hasStorage ==>
        && sessionEmail == old(sessionEmail) && storedLastUsedEmail == old(storedLastUsedEmail)
        && lastUsedEmail == old(lastUsedEmail) && user == old(user) && accounts == old(accounts)
      ensures isPlanModalOpen == old(isPlanModalOpen)
    {
      if !hasStorage { return; }
      sessionEmail := Some(email);
      storedLastUsedEmail := Some(email);
      lastUsedEmail := Some(email);
      LoadUser(email, now, freshId);
    }

    /** `logout`: forget the session; no account is touched. */
    method Logout()
      requires Valid()
      modifies this
      ensures Valid()
      ensures user.None? && accounts == old(accounts)
      ensures sessionEmail == if hasStorage then None else old(sessionEmail)
      ensures storedLastUsedEmail == old(storedLastUsedEmail) && lastUsedEmail == old(lastUsedEmail)
      ensures isPlanModalOpen == old(isPlanModalOpen)
    {
      if hasStorage {
        sessionEmail := None;
      }
      user := None;
    }

    /** `purchasePlan`: append one purchase to the current user; nothing when nobody is logged in. */
    method PurchasePlan(plan: Plans.Plan, now: int, freshId: string)
      requires Valid()
      modifies this
      ensures Valid()
      ensures old(user).None? ==> user.None? && accounts == old(accounts)
      ensures old(user).Some? ==>
        && user == Some(Purchased(old(user).value, plan, now, freshId))
        && accounts == old(accounts)[user.value.email := user.value]
      ensures sessionEmail == old(sessionEmail) && storedLastUsedEmail == old(storedLastUsedEmail)
      ensures lastUsedEmail == old(lastUsedEmail) && isPlanModalOpen == old(isPlanModalOpen)
    {
      if user.None? { return; }
      var current := user.value;
      var newPurchase := PlanPurchase(freshId, plan.name, now, plan.generationCredits, plan.generationCredits);
      var updated := current.(planHistory := current.planHistory + [newPurchase]);
      PurchaseAddsGrant(current, plan, now, freshId);
      user := Some(updated);
      Persist(updated);
    }

    /**
     * `deductCredits`: when a user is logged in and holds at least `amount`
     * active credits, drain them oldest purchase first; otherwise do nothing.
     */
    method DeductCredits(amount: nat, now: int)
      requires Valid()
      modifies this
      ensures Valid()
      ensures user == Deduction.DeductFromUser(old(user), amount, now)
      ensures accounts ==
        if old(user).Some? && amount <= TotalCredits(old(user).value.planHistory, now)
        then old(accounts)[user.value.email := user.value] else old(accounts)
      ensures sessionEmail == old(sessionEmail) && storedLastUsedEmail == old(storedLastUsedEmail)
      ensures lastUsedEmail == old(lastUsedEmail) && isPlanModalOpen == old(isPlanModalOpen)
    {
      if user.None? || TotalCredits(user.value.planHistory, now) < amount { return; }
      var current := user.value;
      var snapshot := current.planHistory;
      var order := Deduction.FifoOrder(snapshot, now);
      var updated := Deduction.Drain(snapshot, order, amount);
      var after := current.(planHistory := updated);
      user := Some(after);
      Persist(after);
    }

    /** `openPlanModal`. */
    method OpenPlanModal()
      modifies this
      ensures isPlanModalOpen
      ensures accounts == old(accounts) && user == old(user) && sessionEmail == old(sessionEmail)
      ensures storedLastUsedEmail == old(storedLastUsedEmail) && lastUsedEmail == old(lastUsedEmail)
    {
      SetPlanModalOpen(true);
    }

    /** `setPlanModalOpen`, the dialog's open/close handler. */
    method SetPlanModalOpen(isOpen: bool)
      modifies this
      ensures isPlanModalOpen == isOpen
      ensures accounts == old(accounts) && user == old(user) && sessionEmail == old(sessionEmail)
      ensures storedLastUsedEmail == old(storedLastUsedEmail) && lastUsedEmail == old(lastUsedEmail)
    {
      isPlanModalOpen := isOpen;
    }
  }
}
