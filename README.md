# Imagen Go credit ledger, in Dafny

This project models the browser-side credit ledger of the Imagen Go image and video
generator. It covers five parts:

- The plan catalog and its lookup by id.
- The account record kept per e-mail: purchase history, login dates, and the
  derived active plan, credit balance and login lock.
- The `UserPlanProvider` state holder: login, logout, purchase, and deduction of
  credits oldest purchase first.
- The purchase-return page, which buys the returned plan at most once per visit.
  It skips a repeat of the same plan within a minute of the last purchase. A
  later visit to the same return URL, more than a minute after the last
  purchase of that plan, buys it again.
- The two consumers of the ledger: the plan dialog, which vets e-mails, sorts the
  history and shows expiry, and the generator page, which gates each generation,
  charges its price after success and names downloads.

Modules, one file each:

| file | module | what it holds |
|---|---|---|
| `wrappers.dfy` | `Wrappers` | `Option` |
| `strings.dfy` | `Strings` | the JavaScript string primitives the core uses (`trim`, `toLowerCase`, `endsWith`, `replace(/\s+/g, '-')`, `slice`) |
| `plans.dfy` | `Plans` | the plan catalog and `getPlanById` |
| `ledger.dfy` | `Ledger` | accounts and purchases as values; expiry, balance, plan label, login lock, first login, login of a returning user, purchase |
| `deduction.dfy` | `Deduction` | `deductCredits`: the oldest-first order, the deduction loop as a method and as a function, and its all-or-nothing and ordering properties |
| `user_plan_context.dfy` | `UserPlanContext` | class `UserPlanProvider`: persisted accounts, session pointers and the current user, updated in place |
| `purchase_success.dfy` | `PurchaseSuccess` | the return page's decision function and class `PurchaseSuccessPage` |
| `active_plan_modal.dfy` | `ActivePlanModal` | e-mail vetting, history order, expiry display, lock alert, class `Dialog` |
| `image_generator.dfy` | `ImageGenerator` | model price, submission gate, download file name, class `Generator` |

Instants are integers in milliseconds since the epoch. A day is 86 400 000 ms.
A login date (`YYYY-MM-DD`) is the number of whole days since the epoch, so the
date string parses to that day's UTC midnight. Browser storage is the map
`UserPlanProvider.accounts` plus two optional e-mail slots. `hasStorage` says
whether storage exists at all. The current instant, fresh purchase ids (`uuidv4`)
and the generation service's answer are parameters.

## Model

| member | source | states |
|---|---|---|
| Plans.FindById | src/lib/plans.ts:74 | a hit is a catalog entry carrying the requested id; a miss means no entry has that id |
| Plans.PricingPlans | src/lib/plans.ts:18-70 | defines the catalog: the Free, Pro, Mega and Booster Pack entries in that order, with their ids, prices, credits and payment links |
| Plans.GetPlanById | src/lib/plans.ts:72-76 | a missing or empty id finds nothing; otherwise the result is the catalog entry with that id, and nothing is found exactly when no entry has it |
| Plans.CatalogLookupRoundTrip | src/lib/plans.ts:18-70 | catalog ids are distinct, so looking up any entry's own id returns that entry |
| Plans.CatalogAmounts | src/lib/plans.ts:18-70 | every catalog price and grant is non-negative; id `free` finds the free entry, which grants 0 Imagen and 20 Pollinations credits |
| Plans.OnlyFreeHasNoPurchaseLink | src/lib/plans.ts:18-70 | an entry has no checkout link exactly when it is the free one |
| Strings.LeadingBlanks | src/components/active-plan-modal.tsx:41 | the count covers only whitespace and stops at the first other character |
| Strings.TrailingBlanks | src/components/active-plan-modal.tsx:41 | the count covers only trailing whitespace and stops at the last other character |
| Strings.TrimStart | src/components/active-plan-modal.tsx:41 | the result is a suffix of the input after a whitespace-only prefix, and does not start with whitespace |
| Strings.TrimEnd | src/components/active-plan-modal.tsx:41 | the result is a prefix of the input before a whitespace-only suffix, and does not end with whitespace |
| Strings.Trim | src/components/active-plan-modal.tsx:41 | the result is one contiguous slice of the input with only whitespace before and after it; it neither starts nor ends with whitespace, and it is empty exactly when the input is all whitespace |
| Strings.TrimMiddle | src/components/active-plan-modal.tsx:41 | trimming the end of the trimmed-start suffix leaves a slice of the input |
| Strings.TrimTail | src/components/active-plan-modal.tsx:41 | every character after that slice is whitespace |
| Strings.TrimOfTrimmed | src/components/active-plan-modal.tsx:41 | trimming a string already free of edge whitespace leaves it unchanged |
| Strings.ToLower | src/components/active-plan-modal.tsx:41 | same length, and each character is lower-cased in place |
| Strings.ToLowerIsLowerCase | src/components/active-plan-modal.tsx:41 | the result has no upper-case letter, and a lower-case string is its own lower case |
| Strings.HyphenateWhitespace | src/components/image-generator.tsx:291 | the result holds no whitespace and is no longer than the input |
| Strings.TrimStartRun | src/components/image-generator.tsx:291 | a whitespace run followed by a non-whitespace character, or by nothing, is skipped whole |
| Strings.HyphenateKeeps | src/components/image-generator.tsx:291 | a character other than whitespace is copied through |
| Strings.HyphenateKeepsAll | src/components/image-generator.tsx:291 | a whitespace-free prefix is copied through unchanged |
| Strings.HyphenateFixesClean | src/components/image-generator.tsx:291 | a string without whitespace is left as it is |
| Strings.HyphenateRunStart | src/components/image-generator.tsx:291 | a maximal whitespace run at the front becomes exactly one hyphen |
| Strings.HyphenateRun | src/components/image-generator.tsx:291 | in `a + w + b`, with `a` whitespace-free, `w` a non-empty whitespace run and `b` not starting with whitespace, the result is `a`, one hyphen, then the result for `b` |
| Strings.Prefix | src/components/image-generator.tsx:291 | the result is the prefix of length exactly `min(n, |s|)` |
| Ledger.GetCreditCost | src/context/user-plan-context.tsx:236-239 | defines the price: 50 credits for a video, 20 for an image |
| Ledger.TierAbove | src/context/user-plan-context.tsx:184 | defines the reduce's comparison: both names have a tier and the first one's is strictly higher, so an unknown name never wins |
| Ledger.Today | src/context/user-plan-context.tsx:80 | defines today's login date: the whole days since the epoch, the date part of the UTC ISO string |
| Ledger.NeverExpires | src/context/user-plan-context.tsx:175 | defines the purchases that never expire: booster packs and the free trial |
| Ledger.ExpiryDate | src/context/user-plan-context.tsx:176 | defines a purchase's expiry instant: 30 days after its purchase instant |
| Ledger.PlanTier | src/context/user-plan-context.tsx:44-50 | defines `PLAN_TIERS`: Free and Free Trial 0, Booster Pack 1, Pro 2, Mega 3, and no tier for any other name |
| Ledger.IsActive | src/context/user-plan-context.tsx:173-178 | defines the filter: booster packs and the free trial always, any other purchase strictly before 30 days after its purchase instant |
| Ledger.TotalCredits | src/context/user-plan-context.tsx:180 | defines the balance of a history: the sum of remaining credits over its active purchases |
| Ledger.TierCandidates | src/context/user-plan-context.tsx:173-178 | the purchases considered for the label are exactly the active ones that are neither booster nor trial |
| Ledger.HighestTier | src/context/user-plan-context.tsx:182-189 | the chosen name has a known tier; no candidate's tier is higher; the name is the seed `Free` or some candidate's plan name |
| Ledger.CurrentPlan | src/context/user-plan-context.tsx:163-189 | defines `activePlan`: Free at tier 0 with nobody logged in, else the highest-tier active subscription's name and tier |
| Ledger.Balance | src/context/user-plan-context.tsx:163-180 | defines `totalCredits`: 0 with nobody logged in, else the user's history balance |
| Ledger.RecentLogins | src/context/user-plan-context.tsx:191-193 | a date is kept exactly when it is in the history and no older than 30 days before now; a duplicate-free history gives a duplicate-free result |
| Ledger.LoginLocked | src/context/user-plan-context.tsx:191-194 | defines `isLoginLocked`: a logged-in user on tier 0 with more than six recent login dates |
| Ledger.NewAccount | src/context/user-plan-context.tsx:82-96 | defines a first login's account: one Free Trial purchase of 20 credits at now, and today as the last and only login date |
| Ledger.RecordLogin | src/context/user-plan-context.tsx:97-106 | defines a returning login: nothing on the recorded day; otherwise today is appended once if absent and becomes the last login date |
| Ledger.LoggedIn | src/context/user-plan-context.tsx:74-106 | defines `loadUser`'s account: the stored one after `RecordLogin`, or a new account |
| Ledger.Purchased | src/context/user-plan-context.tsx:143-157 | defines `purchasePlan`'s account: one purchase of the plan's grant appended at now |
| Ledger.NewAccountSeed | src/context/user-plan-context.tsx:82-96 | a first login creates a consistent account with one Free Trial purchase and today as its only login; at any later time it holds 20 credits, shows plan Free (tier 0) and is not locked |
| Ledger.SameDayLoginIsIdempotent | src/context/user-plan-context.tsx:100-105 | logging in twice on one day equals logging in once, and a login on the recorded day changes nothing |
| Ledger.LoginWithoutHistory | src/context/user-plan-context.tsx:99-105 | a stored record without login dates that logs in on its last login day is kept as it is, although it is not consistent; on another day it gets today as its only login date |
| Ledger.RecordLoginKeepsConsistent | src/context/user-plan-context.tsx:97-106 | a returning login keeps the purchases, records today at most once (login dates stay duplicate-free) and sets the last login date |
| Ledger.LoggedInConsistent | src/context/user-plan-context.tsx:74-110 | whether new or returning, the loaded account is consistent, keyed by the given e-mail, and last logged in today |
| Ledger.TotalCreditsAppend | src/context/user-plan-context.tsx:180 | appending a purchase adds its remaining credits to the balance exactly when it is active |
| Ledger.TotalCreditsUpdate | src/context/user-plan-context.tsx:180 | changing one purchase's remaining credits moves the balance by the difference if that purchase is active, and not at all otherwise |
| Ledger.TotalCreditsZero | src/context/user-plan-context.tsx:180 | if every active purchase is at zero, the balance is zero |
| Ledger.PurchaseAddsGrant | src/context/user-plan-context.tsx:143-161 | a purchase keeps every earlier purchase and the login data, keeps a consistent account consistent, and raises the balance by exactly the plan's grant |
| Ledger.PurchasedSubscriptionExpires | src/context/user-plan-context.tsx:173-178 | 30 days after purchase, a Pro or Mega purchase no longer adds to the balance |
| Ledger.SubscriptionContribution | src/context/user-plan-context.tsx:173-180 | a subscription counts its remaining credits before its expiry instant, and nothing from then on |
| Ledger.ActivePlanIsHighestActiveSubscription | src/context/user-plan-context.tsx:182-189 | the label is Free or the name of an active subscription; its tier is that name's tier; no active subscription has a higher tier |
| Ledger.PaidSubscriptionUnlocks | src/context/user-plan-context.tsx:191-194 | an active Pro or Mega purchase puts the account at tier 2 or higher and lifts the login lock |
| Ledger.LockNeedsRecentLogins | src/context/user-plan-context.tsx:191-194 | a locked account is on tier 0 and has more than six recorded login dates |
| Ledger.DistinctCount | src/context/user-plan-context.tsx:193 | a duplicate-free list of dates holds as many distinct dates as entries |
| Ledger.LoginLockedIff | src/context/user-plan-context.tsx:191-194 | a consistent account is locked if and only if it is on tier 0 and more than six distinct login dates fall in the 30-day window |
| Deduction.ActiveIndicesFrom | src/context/user-plan-context.tsx:210-217 | the indices of exactly the active purchases, each once, in increasing order |
| Deduction.InsertByDate | src/context/user-plan-context.tsx:218 | inserting one index adds exactly that index to the multiset |
| Deduction.InsertKeepsSorted | src/context/user-plan-context.tsx:218 | inserting into a date-sorted index list keeps it sorted |
| Deduction.InsertKeepsDistinct | src/context/user-plan-context.tsx:218 | inserting a new index into a duplicate-free list keeps it duplicate-free |
| Deduction.SortByDate | src/context/user-plan-context.tsx:218 | the result is a permutation of the input indices, sorted by purchase date, and duplicate-free if the input was |
| Deduction.FifoOrder | src/context/user-plan-context.tsx:209-218 | the visiting order lists every active purchase exactly once and no other, oldest first |
| Deduction.InsertKeepsTieOrder | src/context/user-plan-context.tsx:218 | inserting an index smaller than all others keeps purchases of the same date in history order |
| Deduction.SortByDateIsStable | src/context/user-plan-context.tsx:218 | sorting indices given in history order keeps purchases of the same date in history order, as the stable `sort` does |
| Deduction.FifoOrderIsStable | src/context/user-plan-context.tsx:209-218 | active purchases with the same purchase date are drained in history order |
| Deduction.Consume | src/context/user-plan-context.tsx:220-226 | the loop keeps the history's length and never leaves more owed than it started with |
| Deduction.ConsumeOnlyDrains | src/context/user-plan-context.tsx:220-226 | the loop lowers only `creditsRemaining`, never raises it, and touches only the purchases it visits |
| Deduction.Drain | src/context/user-plan-context.tsx:220-226 | the imperative loop, which reads each purchase's pre-loop credits and stops once nothing is owed, computes exactly the `Consume` history |
| Deduction.ConsumeTotal | src/context/user-plan-context.tsx:220-226 | over active purchases, each credit the loop takes comes off the balance |
| Deduction.ConsumeExhausts | src/context/user-plan-context.tsx:220-226 | if something is still owed when the loop ends, every visited purchase is at zero |
| Deduction.ConsumeInOrder | src/context/user-plan-context.tsx:220-226 | a later purchase in the order is touched only after every earlier one is at zero |
| Deduction.ExhaustedOrderEmptiesBalance | src/context/user-plan-context.tsx:220-226 | if the loop visits every active purchase and still owes something, the balance ends at zero |
| Deduction.DeductHistory | src/context/user-plan-context.tsx:203-226 | defines `deductCredits` on a history: unchanged when the balance is short, else the oldest-first loop |
| Deduction.DeductFromUser | src/context/user-plan-context.tsx:203-233 | defines `deductCredits` on the current user: nothing with nobody logged in, else the user with the deducted history |
| Deduction.DeductIsExact | src/context/user-plan-context.tsx:203-234 | all or nothing: a short balance leaves the history unchanged; otherwise the balance drops by exactly the amount |
| Deduction.DeductKeepsWellFormed | src/context/user-plan-context.tsx:203-234 | the deduction keeps `0 <= remaining <= added`, and changes nothing but a lowering of remaining credits |
| Deduction.DeductSparesExpired | src/context/user-plan-context.tsx:212-217 | an expired purchase is never touched |
| Deduction.DeductOldestFirst | src/context/user-plan-context.tsx:218-226 | a newer active purchase is drawn on only once every strictly older active purchase is empty |
| Deduction.TrialScenario | src/context/user-plan-context.tsx:82-96 | a new account holds 20 credits; deducting 20 leaves 0; deducting 1 more is refused and changes nothing |
| Deduction.DeductHistoryAsWritten | src/context/user-plan-context.tsx:203-226 | defines the code as written: the balance is checked at the memo's instant and the purchases are drained at the current one |
| Deduction.StaleBalanceGivesPartialDeduction | src/context/user-plan-context.tsx:203-217 | checking the memoised balance but draining at a later instant gives a deduction that is neither zero nor the full amount |
| Deduction.SameInstantCheckIsExact | src/context/user-plan-context.tsx:204-217 | with the check and the drain at the same instant, the code as written equals the all-or-nothing deduction |
| UserPlanContext.UserPlanProvider.constructor | src/context/user-plan-context.tsx:59-62 | the provider starts with nobody logged in, no last-used e-mail and the dialog closed, over any stored accounts, consistent or not, each filed under its own e-mail |
| UserPlanContext.UserPlanProvider.Persist | src/context/user-plan-context.tsx:64-72 | the account is stored under its own e-mail when storage exists; nothing else changes |
| UserPlanContext.UserPlanProvider.LoadUser | src/context/user-plan-context.tsx:74-110 | with storage, the current user becomes the new or returning account and is stored; without storage nothing changes; every account stays filed under its own e-mail and the current user is the stored one |
| UserPlanContext.UserPlanProvider.Restore | src/context/user-plan-context.tsx:112-123 | with storage, a non-empty stored session's account is loaded and stored; otherwise user and accounts stay; a non-empty stored last-used e-mail is remembered; the stored slots and the dialog flag never change |
| UserPlanContext.UserPlanProvider.Login | src/context/user-plan-context.tsx:125-133 | with storage, the e-mail becomes session and last-used e-mail and its account is loaded; without storage nothing changes |
| UserPlanContext.UserPlanProvider.Logout | src/context/user-plan-context.tsx:135-141 | the session is cleared and nobody is logged in; no account changes |
| UserPlanContext.UserPlanProvider.PurchasePlan | src/context/user-plan-context.tsx:143-161 | with nobody logged in nothing changes; otherwise one purchase of the plan's grant is appended and stored |
| UserPlanContext.UserPlanProvider.DeductCredits | src/context/user-plan-context.tsx:203-234 | the user becomes the oldest-first deduction of the old user; it is stored only when the deduction went through |
| UserPlanContext.UserPlanProvider.OpenPlanModal | src/context/user-plan-context.tsx:241 | the dialog opens and nothing else changes |
| UserPlanContext.UserPlanProvider.SetPlanModalOpen | src/context/user-plan-context.tsx:61 | the dialog's open flag becomes the given value and nothing else changes |
| PurchaseSuccess.IsRecentDuplicate | src/app/purchase-success/page.tsx:43-46 | defines the skip test: the last purchase is the same plan and is less than 60 000 ms old |
| PurchaseSuccess.ReturnStep | src/app/purchase-success/page.tsx:20-56 | defines one run's decision: idle once settled, fail on a missing or unknown plan, skip a recent repeat, buy for a user, log in with a returned e-mail, else wait |
| PurchaseSuccess.StatusAfter | src/app/purchase-success/page.tsx:24-56 | defines the status a step leaves: error on failure, success on a buy or a skip, still processing on a login or a wait |
| PurchaseSuccess.StepAppliesOnlyCatalogPlans | src/app/purchase-success/page.tsx:26-37 | a missing or empty plan id, or one the catalog does not know, fails with its message; any plan acted on is the catalog entry for the returned id |
| PurchaseSuccess.SettledIsAbsorbing | src/app/purchase-success/page.tsx:24 | once the page leaves `processing`, a run does nothing and the status stays |
| PurchaseSuccess.RepeatWithinMinuteIsSkipped | src/app/purchase-success/page.tsx:41-49 | a run within a minute of buying the same plan is reported as already applied and buys nothing |
| PurchaseSuccess.FreshPurchaseIsApplied | src/app/purchase-success/page.tsx:41-52 | with a user and no recent repeat, the run applies the plan and the page succeeds |
| PurchaseSuccess.PurchaseSuccessPage.constructor | src/app/purchase-success/page.tsx:16-18 | the page starts processing, with no message and no plan |
| PurchaseSuccess.PurchaseSuccessPage.RunReturnEffect | src/app/purchase-success/page.tsx:20-58 | one run takes the decided step; status, message and plan follow the step; on Apply the user buys the plan, the account is stored and the session and last-used slots stay; on LogIn with storage the e-mail's account is loaded and stored and becomes session and last-used e-mail; on any other step user, accounts and both slots stay; the dialog flag never changes |
| PurchaseSuccess.PurchaseSuccessPage.SessionTimeout | src/app/purchase-success/page.tsx:61-74 | a page still processing with nobody logged in fails with the session message; otherwise nothing changes |
| PurchaseSuccess.ReturnFlow | src/app/purchase-success/page.tsx:20-58 | a return with a known plan and a new e-mail logs in, buys once, and settles at success with exactly two purchases: the Free Trial first and that plan second |
| ActivePlanModal.NormalizeEmail | src/components/active-plan-modal.tsx:41 | defines the normalised address: trimmed, then lower-cased |
| ActivePlanModal.ALLOWED_DOMAINS | src/components/active-plan-modal.tsx:27 | defines the accepted providers: `@gmail.com` and `@yahoo.com` |
| ActivePlanModal.HasAllowedDomain | src/components/active-plan-modal.tsx:51 | defines the provider check: the address ends with one of the accepted suffixes |
| ActivePlanModal.CheckLogin | src/components/active-plan-modal.tsx:40-62 | defines `handleLogin`'s checks in order: blank, then provider, else accept the normalised address |
| ActivePlanModal.AllowedDomainLength | src/components/active-plan-modal.tsx:27 | an address with an allowed provider has at least ten characters |
| ActivePlanModal.NormalizeShape | src/components/active-plan-modal.tsx:41 | the normalised address is empty exactly when the input is blank, and is lower case |
| ActivePlanModal.NormalizeEdges | src/components/active-plan-modal.tsx:41 | the normalised address neither starts nor ends with whitespace |
| ActivePlanModal.CheckLoginOutcomes | src/components/active-plan-modal.tsx:40-60 | a blank input, and only a blank input, is refused as missing; a non-blank input outside the allowed providers, and only that, is refused as invalid; an accepted address is the normalised input with an allowed provider |
| ActivePlanModal.NormalizeIsIdempotent | src/components/active-plan-modal.tsx:41 | normalising twice equals normalising once |
| ActivePlanModal.AcceptedIsStable | src/components/active-plan-modal.tsx:40-62 | an accepted address typed in again is accepted unchanged |
| ActivePlanModal.LoginIgnoresCaseAndPadding | src/components/active-plan-modal.tsx:41-62 | two inputs with the same normalised form get the same verdict |
| ActivePlanModal.InsertNewestFirst | src/components/active-plan-modal.tsx:79 | inserting one purchase adds exactly it to the multiset |
| ActivePlanModal.InsertKeepsNewestFirst | src/components/active-plan-modal.tsx:79 | inserting into a newest-first list keeps it newest first |
| ActivePlanModal.SortNewestFirst | src/components/active-plan-modal.tsx:79 | the displayed history is a permutation of the stored one, newest purchase first |
| ActivePlanModal.IsExpired | src/components/active-plan-modal.tsx:88-90 | defines the dialog's expired mark: a subscription strictly after its expiry instant |
| ActivePlanModal.IsSubscription | src/components/active-plan-modal.tsx:89 | defines a subscription in the dialog: any purchase other than a booster pack or the free trial |
| ActivePlanModal.ExpiryDisplayAgreesWithLedger | src/components/active-plan-modal.tsx:88-90 | the dialog's subscription test is the ledger's expiring test; a purchase shown as expired is not counted; the two differ only at the expiry instant itself |
| ActivePlanModal.ShowLimitAlert | src/components/active-plan-modal.tsx:132-134 | defines the alert: a logged-in user who is locked and on tier 0 |
| ActivePlanModal.LimitAlertIsLock | src/components/active-plan-modal.tsx:134 | the alert shows exactly when the account is locked, so its extra tier test never matters |
| ActivePlanModal.Dialog.constructor | src/components/active-plan-modal.tsx:31 | the e-mail field starts empty |
| ActivePlanModal.Dialog.TypeEmail | src/components/active-plan-modal.tsx:31 | the field holds what was typed |
| ActivePlanModal.Dialog.OnOpen | src/components/active-plan-modal.tsx:34-38 | opening with nobody logged in fills the field with the last-used e-mail, or empties it; otherwise the field stays |
| ActivePlanModal.Dialog.HandleLogin | src/components/active-plan-modal.tsx:40-67 | the verdict is that of the typed address; an accepted address with storage loads and stores its account and becomes session and last-used e-mail, under its normalised form; a refusal, or no storage, leaves user, accounts and both slots as they were; the dialog flag never changes |
| ActivePlanModal.Dialog.HandleLogout | src/components/active-plan-modal.tsx:69-76 | nobody is logged in, the dialog is closed and no account changes; the stored session is cleared when storage exists; the last-used slots stay |
| ImageGenerator.IsVideoModel | src/components/image-generator.tsx:84 | defines a video model: its id is one of the video model ids |
| ImageGenerator.CreditCostFor | src/components/image-generator.tsx:84-85 | defines a model's price: the video price for a video model, the image price otherwise |
| ImageGenerator.ModelPricing | src/components/image-generator.tsx:84-85 | a generation costs 50 credits exactly for a video model and 20 for every other id |
| ImageGenerator.IsGenerateDisabled | src/components/image-generator.tsx:172 | defines the disabled button: loading, short of credits, or locked |
| ImageGenerator.HasSufficientCredits | src/components/image-generator.tsx:87 | defines enough credits: the balance is at least the model's price |
| ImageGenerator.ValidForm | src/components/image-generator.tsx:41-44 | defines the form schema: a non-empty prompt and a non-empty model |
| ImageGenerator.SubmitGate | src/components/image-generator.tsx:89-117 | defines the submission checks in order: form, login, lock, balance, else proceed at the model's price |
| ImageGenerator.GateGuaranteesExactCharge | src/components/image-generator.tsx:89-125 | a generation starts only for a logged-in, unlocked user who can pay its price, and charging that price at the same instant takes exactly it off the balance |
| ImageGenerator.GateMatchesButton | src/components/image-generator.tsx:87-117 | for a valid form and a logged-in user, the submission passes exactly when an idle Generate button is enabled |
| ImageGenerator.TrialAffordsOneImage | src/components/image-generator.tsx:85-117 | a new account's trial pays for one image and no video, and after that image the next is refused for lack of credits |
| ImageGenerator.PromptSlug | src/components/image-generator.tsx:291 | the prompt part of the name has at most 20 characters, no whitespace and no capitals; an already clean short prompt is used as is; it is the first `min(20, n)` characters of the hyphenated prompt of length `n`, each lower-cased |
| ImageGenerator.Extension | src/components/image-generator.tsx:290 | defines the extension: `png` for an image, `mp4` for a video |
| ImageGenerator.FixedPartsAreClean | src/components/image-generator.tsx:291 | the fixed prefix and both extensions hold no whitespace and no capitals |
| ImageGenerator.DownloadFilename | src/components/image-generator.tsx:290-291 | the file name has no whitespace or capitals, starts with the fixed prefix, ends with the media kind's extension, has the prompt's slug in between, and is between 22 and 42 characters long |
| ImageGenerator.SlugJoinsWords | src/components/image-generator.tsx:291 | two whitespace-free words separated by any non-empty whitespace run, short enough to fit, give the two words lower-cased and joined by one hyphen |
| ImageGenerator.FilenamesDifferOnlyInExtension | src/components/image-generator.tsx:290-291 | an image and a video from the same prompt get names that differ only in the extension |
| ImageGenerator.Generator.constructor | src/components/image-generator.tsx:67-79 | the form starts at the default prompt and the first image model, with no media, not loading and no download |
| ImageGenerator.Generator.EditForm | src/components/image-generator.tsx:73-82 | the form holds the edited values and nothing else changes |
| ImageGenerator.Generator.GenerateDisabled | src/components/image-generator.tsx:172 | defines the button's state on the page: `IsGenerateDisabled` of the loading flag, the current user's balance against the selected model's price, and the lock |
| ImageGenerator.Generator.OnSubmit | src/components/image-generator.tsx:89-140 | the gate is decided on the submitted form; a refusal opens the dialog only for missing login or the lock and changes nothing else; a passed gate charges the price only when generation succeeds, and exactly that price when charged at the same instant; the account is stored only when the charge went through; the session and last-used slots never change |
| ImageGenerator.Generator.Generate | src/components/image-generator.tsx:119-139 | loading ends; the media is shown on success and cleared on failure; the user is charged the cost on success only; the account is stored only when the balance covered the cost; session, last-used slots, dialog flag and form stay |
| ImageGenerator.Generator.DownloadClick | src/components/image-generator.tsx:142-144 | a download starts only for media at a non-empty URL while no download is in flight, under the prompt's file name, and marks that URL as downloading |
| ImageGenerator.Generator.DownloadFinished | src/components/image-generator.tsx:167-169 | the in-flight download is cleared and nothing else changes |

## Left out

- Browser storage is modelled as a map, not as JSON text. A record that fails to parse, and changes made by other tabs, are not modelled. The source looks accounts up with `allUsersData[email]` (src/context/user-plan-context.tsx:79), which also finds names inherited from the object prototype. For an e-mail such as `__proto__` or `constructor`, which the return page accepts from its URL unchecked, the source takes the returning-user branch on a shared built-in object, writes the login fields onto it, and then fails when it reads `planHistory`. The model's map has no inherited keys, so it creates a new account for such an e-mail.
- UserPlanContext.UserPlanProvider.constructor: stored accounts need not be consistent, but each one must be filed under its own `email` field. The source only writes a record under the record's own `email` (src/context/user-plan-context.tsx:64-72). A record edited by hand so that its key and its `email` differ would be written back under the other e-mail. The model does not represent such a record.
- Time is a parameter, not the system clock. Adding 30 days with the local calendar's `setDate` is modelled as exactly 30 × 86 400 000 ms, so shifts from daylight saving time are not modelled.
- Login dates are day numbers, not ISO strings. The 30-day window for logins is counted from the same instant in milliseconds.
- `uuidv4` is a parameter: each purchase receives its fresh id from the caller.
- React scheduling is not modelled. Each state update takes effect at once. The memoised `activePlan`, `totalCredits` and `isLoginLocked` are recomputed at the instant of use. The memo is read in two places. One is `deductCredits`' balance check, stated under Findings. The other is the generator's gate: `hasSufficientCredits`, `isLoginLocked` and the button test (src/components/image-generator.tsx:87, 100, 110, 172) read the memo too. The model evaluates them at the submission instant, so a subscription that expired since the user record last changed is not seen as still counting there.
- ImageGenerator.Generator.OnSubmit / ImageGenerator.Generator.Generate: the source charges through the `deductCredits` closure of the render that submitted (src/components/image-generator.tsx:123-125). That closure holds the user of that render (src/context/user-plan-context.tsx:203-233). A logout or an account switch during the `await` is therefore undone: the old account is charged, becomes the current user again and is stored. The model charges whoever is current when the generation finishes.
- Plans.Plan: the catalog's entries in the source have no `generationCredits` field, so `purchasePlan` stores `undefined` credits. The model gives each plan an abstract `generationCredits` grant, equal to its Pollinations credits. The description, features and button text fields are not modelled.
- In the source, that `undefined` grant makes `totalCredits` `NaN` after any purchase while the purchase is active, for good in the case of a booster pack, which never expires. `NaN >= cost` is false, so `hasSufficientCredits` is false and every generation is refused as short of credits (src/components/image-generator.tsx:87, 110). `deductCredits`' check `NaN < amount` is false as well, so that check would let any deduction through. The model does not carry `NaN`: every purchase adds its grant to the balance.
- Deduction.Drain: the loop in the source changes purchase objects that the previous user state shares, because only the array is copied. That aliasing is not modelled: the model builds a new history value.
- Amounts are natural numbers. Negative or fractional amounts are not modelled.
- ActivePlanModal.SortNewestFirst: it is stable, but its contract states only permutation and order, not the order of purchases with the same date.
- The dialog's per-service totals (`totalGoogleImagenCredits`, `totalPollinationsCredits`) are not provided by the ledger in the source. They are left out.
- Strings.ToLower: only ASCII letters are lower-cased. Other Unicode case mappings are not modelled.
- Strings.Prefix: it counts characters. `slice` counts UTF-16 code units, so the two differ for characters outside the Basic Multilingual Plane.
- The generation service (`generateMedia`), its URL validation and its errors are left out. Its answer is the `Generation` parameter, and the charge is taken at the parameter `finishedAt`.
- ImageGenerator.Generator.OnSubmit: the price is taken from the submitted model. The source computes it from the watched model field, which is the same value at submission. The balance and lock are evaluated at the submission instant, not from the memo.
- Toasts, routing, rendering, `fetch`, blobs and the DOM link used by the download are left out. The download is the `DownloadRequest` value that a click produces.
- The 3-second timer is the event `SessionTimeout`. The model does not count the time.
- ActivePlanModal.Dialog.HandleLogout: it closes the dialog with `setPlanModalOpen(false)`. The source calls the `onOpenChange` property (src/components/active-plan-modal.tsx:71), and the parent that mounts the dialog is not part of this model. The model assumes that property is the provider's `setPlanModalOpen`, as its `isOpen`/`onOpenChange` pair suggests.

## Findings

| source | as written | input that shows it | evidently intended | confidence | as-written member | corrected member |
|---|---|---|---|---|---|---|
| src/context/user-plan-context.tsx:204 | `deductCredits` checks the memoised `totalCredits`, computed when the user record last changed, but drains only the purchases active at the new `now` | trial with 10 left and Pro with 100 left, both bought at 0; balance memoised at 0 (110); deduct 20 at 30 days, when Pro has expired: the check passes, 10 are taken and 10 are silently not charged | all or nothing: check and drain against the same instant, so the balance drops by exactly the amount or not at all | not executed | Deduction.StaleBalanceGivesPartialDeduction | Deduction.DeductIsExact |
