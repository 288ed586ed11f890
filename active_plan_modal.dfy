/**
 * The plan-management dialog: it normalises and vets the e-mail typed in
 * before handing it to the ledger's `login`, lists the purchase history
 * newest first with each subscription's expiry, and shows the free-account
 * lock alert.
 */
module ActivePlanModal {
  import opened Wrappers
  import opened Ledger
  import Strings
  import UserPlanContext

  /** Only these mail providers may log in. */
  const ALLOWED_DOMAINS: seq<string> := ["@gmail.com", "@yahoo.com"]

  /** `email.trim().toLowerCase()`. */
  function NormalizeEmail(email: string): string {
    Strings.ToLower(Strings.Trim(email))
  }

  predicate HasAllowedDomain(email: string) {
    exists i :: 0 <= i < |ALLOWED_DOMAINS| && Strings.EndsWith(email, ALLOWED_DOMAINS[i])
  }

  /** The three outcomes of `handleLogin`. */
  datatype LoginCheck = EmailRequired | InvalidProvider | Accepted(email: string)

  /** Every allowed provider suffix is ten characters long. */
  lemma AllowedDomainLength(email: string)
    requires HasAllowedDomain(email)
    ensures |email| >= 10
  {
    var i :| 0 <= i < |ALLOWED_DOMAINS| && Strings.EndsWith(email, ALLOWED_DOMAINS[i]);
    assert |ALLOWED_DOMAINS[i]| == 10;
  }

  /** The normalised form is blank exactly when the input is, and is lower case. */
  lemma NormalizeShape(email: string)
    ensures NormalizeEmail(email) == "" <==> Strings.AllWhitespace(email)
    ensures Strings.IsLowerCase(NormalizeEmail(email))
  {
    Strings.ToLowerIsLowerCase(Strings.Trim(email));
  }

  /** The normalised form neither starts nor ends with whitespace. */
  lemma NormalizeEdges(email: string)
    ensures var n := NormalizeEmail(email);
      n == "" || (!Strings.IsWhitespace(n[0]) && !Strings.IsWhitespace(n[|n| - 1]))
  {
    var t := Strings.Trim(email);
    var n := Strings.ToLower(t);
    if n != "" {
      var first, last := t[0], t[|t| - 1];
      assert !Strings.IsWhitespace(first) && !Strings.IsWhitespace(last);
      assert n[0] == Strings.ToLowerChar(first);
      assert n[|n| - 1] == Strings.ToLowerChar(last);
    }
  }

  /** `handleLogin`'s checks, in order: blank input, then the provider. */
  function CheckLogin(email: string): LoginCheck {
    var normalized := NormalizeEmail(email);
    if normalized == "" then EmailRequired
    else if !HasAllowedDomain(normalized) then InvalidProvider
    else Accepted(normalized)
  }

  /**
   * An input that is blank after trimming is refused as missing; a normalised
   * address outside the allowed providers is refused; anything else is
   * accepted in its normalised form.
   */
  lemma CheckLoginOutcomes(email: string)
    ensures var r := CheckLogin(email);
      && (r == EmailRequired <==> Strings.AllWhitespace(email))
      && (r == InvalidProvider <==> !Strings.AllWhitespace(email) && !HasAllowedDomain(NormalizeEmail(email)))
      && (r.Accepted? ==>
            && r.email == NormalizeEmail(email)
            && HasAllowedDomain(r.email) && |r.email| >= 10
            && Strings.IsLowerCase(r.email))
  {
    NormalizeShape(email);
    var n := NormalizeEmail(email);
    if n != "" && HasAllowedDomain(n) {
      AllowedDomainLength(n);
    }
  }

  /** Normalising twice is normalising once. */
  lemma NormalizeIsIdempotent(email: string)
    ensures NormalizeEmail(NormalizeEmail(email)) == NormalizeEmail(email)
  {
    NormalizeEdges(email);
    var n := NormalizeEmail(email);
    Strings.TrimOfTrimmed(n);
    Strings.ToLowerIsLowerCase(Strings.Trim(email));
    Strings.ToLowerIsLowerCase(n);
  }

  /** An accepted address, typed in again, is accepted unchanged. */
  lemma AcceptedIsStable(email: string)
    requires CheckLogin(email).Accepted?
    ensures CheckLogin(CheckLogin(email).email) == CheckLogin(email)
  {
    NormalizeIsIdempotent(email);
    CheckLoginOutcomes(email);
  }

  /** Letter case and surrounding blanks never decide who logs in. */
  lemma LoginIgnoresCaseAndPadding(a: string, b: string)
    requires NormalizeEmail(a) == NormalizeEmail(b)
    ensures CheckLogin(a) == CheckLogin(b)
  {
    assert Strings.AllWhitespace(a) <==> NormalizeEmail(a) == "";
    assert Strings.AllWhitespace(b) <==> NormalizeEmail(b) == "";
  }

  // ---------------------------------------------------------------------------
  // Purchase history

  /** Each purchase no older than the one after it. */
  predicate NewestFirst(h: seq<PlanPurchase>) {
    forall i, j :: 0 <= i < j < |h| ==> h[i].purchaseDate >= h[j].purchaseDate
  }

  /** Place `p` before the first entry not newer than it. */
  function InsertNewestFirst(p: PlanPurchase, s: seq<PlanPurchase>): (r: seq<PlanPurchase>)
    ensures multiset(r) == multiset(s) + multiset{p}
  {
    if s == [] || s[0].purchaseDate <= p.purchaseDate then [p] + s
    else
      assert s == [s[0]] + s[1..];
      [s[0]] + InsertNewestFirst(p, s[1..])
  }

  lemma {:induction false} InsertKeepsNewestFirst(p: PlanPurchase, s: seq<PlanPurchase>)
    requires NewestFirst(s)
    ensures NewestFirst(InsertNewestFirst(p, s))
  {
    if s == [] || s[0].purchaseDate <= p.purchaseDate {
    } else {
      InsertKeepsNewestFirst(p, s[1..]);
      var rest := InsertNewestFirst(p, s[1..]);
      assert NewestFirst(s[1..]);
      forall k | 0 <= k < |rest| ensures s[0].purchaseDate >= rest[k].purchaseDate {
        assert rest[k] in multiset(s[1..]) + multiset{p};
        if rest[k] != p {
          assert rest[k] in s[1..];
        }
      }
    }
  }

  /** The history as the dialog lists it: a permutation of it, newest purchase first. */
  function SortNewestFirst(h: seq<PlanPurchase>): (r: seq<PlanPurchase>)
    ensures multiset(r) == multiset(h)
    ensures NewestFirst(r)
  {
    if h == [] then []
    else
      var rest := SortNewestFirst(h[1..]);
      InsertKeepsNewestFirst(h[0], rest);
      assert h == [h[0]] + h[1..];
      InsertNewestFirst(h[0], rest)
  }

  /** Booster packs and the free trial carry no expiry line. */
  predicate IsSubscription(p: PlanPurchase) {
    p.planName != BOOSTER_PACK && p.planName != FREE_TRIAL
  }

  /** A subscription is shown as expired strictly after its expiry instant. */
  predicate IsExpired(p: PlanPurchase, now: int) {
    IsSubscription(p) && now > ExpiryDate(p)
  }

  /**
   * The dialog and the ledger agree on which purchases are spent, except at
   * the expiry instant itself: there the ledger no longer counts the
   * subscription but the dialog does not yet show it as expired.
   */
  lemma ExpiryDisplayAgreesWithLedger(p: PlanPurchase, now: int)
    ensures IsSubscription(p) == !NeverExpires(p)
    ensures IsExpired(p, now) ==> !IsActive(p, now)
    ensures !IsActive(p, now) && now != ExpiryDate(p) ==> IsExpired(p, now)
    ensures IsSubscription(p) && now == ExpiryDate(p) ==> !IsActive(p, now) && !IsExpired(p, now)
  {
  }

  /** The lock alert: a logged-in user, locked, on the Free tier. */
  predicate ShowLimitAlert(user: Option<User>, now: int) {
    user.Some? && LoginLocked(user, now) && CurrentPlan(user, now).tier == 0
  }

  /** The alert's extra tier test is implied by the lock itself. */
  lemma LimitAlertIsLock(user: Option<User>, now: int)
    ensures ShowLimitAlert(user, now) == LoginLocked(user, now)
    ensures ShowLimitAlert(user, now) ==> |RecentLogins(user.value.loginHistory, now)| > LOGIN_LIMIT
  {
  }

  // ---------------------------------------------------------------------------
  // The dialog

  class Dialog {
    const ledger: UserPlanContext.UserPlanProvider
    var email: string

    constructor (ledger: UserPlanContext.UserPlanProvider)
      ensures this.ledger == ledger && email == ""
    {
      this.ledger := ledger;
      email := "";
    }

    /** The input field's `onChange`. */
    method TypeEmail(text: string)
      modifies this
      ensures email == text
    {
      email := text;
    }

    /** The effect on opening: with nobody logged in, prefill the last e-mail used. */
    method OnOpen(isOpen: bool)
      modifies this
      ensures email == if isOpen && ledger.user.None? then
                         (if ledger.lastUsedEmail.Some? then ledger.lastUsedEmail.value else "")
                       else old(email)
    {
      if isOpen && ledger.user.None? {
        email := if ledger.lastUsedEmail.Some? then ledger.lastUsedEmail.value else "";
      }
    }

    /** `handleLogin`: vet the typed address and log in with its normalised form. */
    method HandleLogin(now: int, freshId: string) returns (check: LoginCheck)
      requires ledger.Valid()
      modifies ledger
      ensures ledger.Valid()
      ensures check == CheckLogin(email)
      ensures check.Accepted? && ledger.hasStorage ==>
        && ledger.user == Some(LoggedIn(old(ledger.accounts), check.email, now, freshId))
        && ledger.accounts == old(ledger.accounts)[check.email := ledger.user.value]
        && ledger.sessionEmail == Some(check.email)
        && ledger.storedLastUsedEmail == Some(check.email) && ledger.lastUsedEmail == Some(check.email)
      ensures !(check.Accepted? && ledger.hasStorage) ==>
        && ledger.user == old(ledger.user) && ledger.accounts == old(ledger.accounts)
        && ledger.sessionEmail == old(ledger.sessionEmail)
        && ledger.storedLastUsedEmail == old(ledger.storedLastUsedEmail) && ledger.lastUsedEmail == old(ledger.lastUsedEmail)
      ensures ledger.isPlanModalOpen == old(ledger.isPlanModalOpen)
    {
      var typed := email;
      check := CheckLogin(typed);
      if check.Accepted? {
        ledger.Login(check.email, now, freshId);
      }
      assert email == typed;
    }

    /** `handleLogout`: log out and close the dialog. */
    method HandleLogout()
      requires ledger.Valid()
      modifies ledger
      ensures ledger.Valid()
      ensures ledger.user.None? && !ledger.isPlanModalOpen
      ensures ledger.accounts == old(ledger.accounts)
      ensures ledger.sessionEmail == if ledger.hasStorage then None else old(ledger.sessionEmail)
      ensures ledger.storedLastUsedEmail == old(ledger.storedLastUsedEmail) && ledger.lastUsedEmail == old(ledger.lastUsedEmail)
    {
      ledger.Logout();
      ledger.SetPlanModalOpen(false);
    }
  }
}
