# Money ledger of the EV investment app, in Dafny

This project models the money ledger of a small investment app. The ledger is a store of `users`, `transactions` and `investments` documents. Its operations move amounts between a user's three balances: `rechargeWallet`, `mainBalance` and `totalWithdraw`.

The operations modelled:

- the two admin approval handlers of the server (`approve-recharge`, `approve-withdraw`);
- the daily profit pass (`sync-profits`), which credits accrued profit and a 5% referral commission in one batch;
- the client pages that write to the ledger: the withdraw request, the recharge request, the plan purchase, the admin panel's reject action and pending lists, and registration.

Structure:

- `Types` holds the record shapes and enumerations of `src/types.ts`. The `id`/`uid` field of each record is the key under which the store holds it.
- `LedgerStore` holds the store snapshot and its invariants:
  - `Valid`: fresh ids are never in use, and referral codes are unique;
  - `Solvent`: no negative balance, pending amount or daily profit.
- `Accrual` holds the day count, profit, commission and per-investment update.
- `Server`, `WithdrawPage`, `RechargePage`, `ProductsPage`, `AdminPage` and `LoginPage` describe each handler or page action as a function. The function maps the store before the call to the store after it and the outcome reported. These functions carry the contracts, and the lemmas beside them relate several calls.
- `LedgerService.Ledger` is the ledger as one object. Its five fields are updated in place by one method per handler. Each method is proved to leave exactly the state, and report exactly the outcome, that its function describes.
- The profit pass is a loop method, `BuildBatch`. It runs over the investments in id order and collects the batch in working copies. `SyncProfits` assigns the fields only when the batch would commit.

Representation choices:

- Money is `real`, so the 5% commission is exact.
- Time is an `int` of milliseconds, with `DAY = 86400000`. The server's `new Date()` and `serverTimestamp()` become an injected `now`.
- Document ids the store allocates are natural numbers taken from the counters `nextTxId` and `nextInvId`. This includes the `productId` of an investment, which the source types as a string. User ids are strings.
- Outcomes are `Ok` (HTTP 200), `Unauthorized` (403), `InvalidTransaction` (400), `StoreFailure` (500, a write the store refuses) and `Refused(reason)`, a page's guard clause that writes nothing.

Store behaviour the model relies on:

- An `update` of a missing document fails.
- A `runTransaction` unit or a batch is all-or-nothing.
- `addDoc` refuses a record with an undefined field.

Where the code departs from the ledger's intended design, the model follows the code. Lemmas show each departure:

- The approval handlers never look at the transaction's type. `AdminPage.WithdrawApprovedAsRecharge` shows a withdraw request approved through the recharge handler.
- Reject checks neither the actor nor the pending state (`AdminPage.Reject`, `AdminPage.RejectAfterApproval`). It does not refund a withdraw (`AdminPage.RejectedWithdrawIsNotRefunded`).
- The pending check runs before the atomic unit opens. This is a race in concurrent use and is noted in a comment; the sequential model cannot show it.
- One missing owner makes the whole profit pass fail: `Server.Sync` reports `StoreFailure` and writes nothing. A per-investment failure does not simply skip that investment.
- Moving `lastProfitClaim` to `now` drops the partial day (`Accrual.ClaimDropsPartialDay`). Profit is not capped at `endDate` (`Accrual.AccrualNotCappedAtEndDate`).

## Model

| member | source | states |
|---|---|---|
| Types.Credit | src/types.ts:5-7 | an increment of one balance field moves that field by exactly the delta and leaves the other two balances and every other field as they were |
| Types.CreditTwice | server.ts:112-119 | two increments of the same field add up, which is how the pass's several increments to one user combine |
| LedgerStore.AddTransaction | src/pages/Withdraw.tsx:30-37 | adding a document takes an unused id, keeps every existing transaction and keeps the store valid |
| LedgerStore.AddInvestment | src/pages/Products.tsx:54-65 | adding an investment document takes an unused id, keeps every existing investment and keeps the store valid |
| LedgerStore.EmptyIsValid | src/types.ts:1-51 | the empty store, with no documents of any of these record shapes (the state before anything is written), satisfies the id and referral-code invariant and is solvent |
| Accrual.ElapsedDays | server.ts:105-106 | the elapsed days are the floor of the elapsed time over one day: `days*DAY <= now-last < (days+1)*DAY` |
| Accrual.AtLeastOneDay | server.ts:108 | at least one whole day has elapsed exactly when a full DAY of milliseconds has |
| Accrual.Profit | server.ts:109 | profit is non-negative for a non-negative daily profit and day count |
| Accrual.Commission | server.ts:135 | the commission is one twentieth of the profit and lies between 0 and the profit |
| Accrual.Accrued | server.ts:109-125 | a due investment's `totalEarned` rises by daily profit times days, its claim mark becomes `now` so it is no longer due, it is completed exactly when `now >= endDate`, and nothing else changes |
| Accrual.Settle | server.ts:103-125 | after the pass an investment is never due; a due one becomes exactly its accrued update; one that was not due, and any completed one, is unchanged; earnings never decrease |
| Accrual.ThreeDaysAtThirtyFive | server.ts:105-119 | 35 a day over three days adds 105 |
| Accrual.NotDueStaysActive | server.ts:108 | less than a day after the last claim nothing changes, and the investment stays active even after its end date |
| Accrual.ClaimDropsPartialDay | server.ts:112-115 | a claim 36 hours after the last credits one day, and the next claim is not due 12 hours later |
| Accrual.AccrualNotCappedAtEndDate | server.ts:105-125 | a two-day plan first claimed after ten days earns ten days of profit and is completed |
| Server.Approve | server.ts:28-89 | unauthorized iff the actor is not an admin; invalid iff the transaction is missing or not pending; success iff also the owner exists; on any failure nothing changes; on success the transaction is approved at `now` and only the owner's chosen balance rises by the amount; validity and solvency are kept |
| Server.ApproveTwiceCreditsOnce | server.ts:36-41 | after a successful approval a second approval of the same id by any admin, through either handler, reports invalid and changes nothing |
| Server.RechargeOfFiveHundred | server.ts:46-51 | approving a pending recharge of 500 adds 500 to the owner's recharge wallet, and repeating the call changes nothing |
| Server.Referrer | server.ts:127-133 | a referrer is found iff the owner exists, entered a non-empty code and some user holds that code; the referrer found holds it |
| Server.ReferralRecord | server.ts:140-148 | the commission record is an approved referral owned by the referrer, for the commission, naming the referred user's phone |
| Server.CommissionAt | server.ts:127-150 | an iteration adds a commission record iff its investment is due and its owner has a referrer; the record is an approved referral of 5% of that investment's profit, owned by the referrer found and naming the owner's phone |
| Server.CommissionsAreReferrals | server.ts:140-148 | every record the pass adds is an approved referral commission owned by an existing user |
| Server.PassStep | server.ts:103-150 | one iteration, done on the working copies of the batch, moves the batch from the first k investments to the first k+1 |
| Server.Sync | server.ts:94-159 | the pass reports `StoreFailure` iff some due investment's owner is missing, and then writes nothing; otherwise it commits every settled investment, every user's credited main balance and the appended commission records; validity and solvency are kept |
| Server.SyncCommits | server.ts:154 | the batch commits exactly when no owner is missing |
| Server.InvestmentsSettled | server.ts:103-125 | the first n iterations settle exactly the investments with id below n and keep the set of investments |
| Server.StepUsers | server.ts:112-138 | one iteration credits each user by exactly that user's gain: the profit if the user is the owner, plus the commission if the user is the referrer |
| Server.UsersEarned | server.ts:103-150 | after the pass every user's main balance has risen by exactly what that user earned in total, and nothing else of the user has changed |
| Server.UserEarned | server.ts:103-150 | the same, for one user and the first n iterations |
| Server.TransactionsAppended | server.ts:117-148 | every existing transaction is kept, the commission records take the next ids in order, and no other record is created |
| Server.MissingOwnerIffOrphan | server.ts:112-119 | the batch holds a failing update iff some investment among those walked is due and its owner is missing |
| Server.EarnedNonNegative | server.ts:109-138 | in a solvent store no user earns a negative total |
| Server.SyncValid | server.ts:94-159 | a committed pass keeps ids fresh and referral codes unique |
| Server.SyncSolvent | server.ts:94-159 | every record the pass adds is approved; from a solvent store no user's main balance falls, and the store stays solvent |
| Server.QuietPass | server.ts:108 | when nothing is due, the pass writes nothing and cannot fail |
| Server.SyncTwice | server.ts:105-115 | running the pass twice at the same moment is the same as running it once |
| Server.SyncSameWindow | server.ts:105-115 | once a committed pass has credited a due investment at t1, its claim mark is t1, and a later pass at any t2 less than a day after t1 finds it not due and leaves it unchanged, so no investment is credited twice in one elapsed-day window |
| Server.CompletedIsTerminal | server.ts:96-98 | a completed investment is left exactly as it was |
| Server.OneInvestmentWithReferrer | server.ts:127-150 | in a store whose only investment is due and has an owner with a referrer, the pass commits and adds exactly one record, at the next id: the approved 5% commission to the referrer |
| Server.CommissionRecordOf | server.ts:127-150 | in a store with any number of investments, a committed pass holds each due investment's commission record, at the id after the records of the investments before it: 5% of its profit, owned by the referrer, naming the owner's phone |
| Server.CommissionsPrefix | server.ts:103-148 | the records of the first k iterations are the first records of the whole pass |
| Server.CommissionsOnly | server.ts:127-150 | with one investment, the pass's records are exactly that investment's commission |
| WithdrawPage.WithdrawRecord | src/pages/Withdraw.tsx:30-37 | the request record is a pending withdraw owned by the user, with the amount and the account details |
| WithdrawPage.RequestWithdraw | src/pages/Withdraw.tsx:17-50 | the guards run in the order profile, minimum 200, balance, details; each refusal writes nothing; success appends one pending withdraw and lowers the main balance by the amount, never below zero |
| WithdrawPage.WithdrawDebitsMainBalanceOnly | src/pages/Withdraw.tsx:39-41 | an accepted request lowers only the requester's main balance, by exactly the amount, and queues the amount as pending |
| RechargePage.RechargeRecord | src/pages/Recharge.tsx:23-30 | the request record is a pending recharge for the amount, paid by UPI |
| RechargePage.RequestRecharge | src/pages/Recharge.tsx:16-38 | below 100 is refused; without a profile the write fails; otherwise one pending recharge is appended; no balance ever changes |
| ProductsPage.DefaultPlans | src/pages/Products.tsx:22-27 | three plans, each with `totalReturn = price + dailyProfit * duration` |
| ProductsPage.Catalogue.SeedIfEmpty | src/pages/Products.tsx:22-33 | an empty catalogue receives the default plans at consecutive ids in order; a non-empty one is left alone |
| ProductsPage.Catalogue.Add | src/pages/Products.tsx:29 | one catalogue document at a fresh id |
| ProductsPage.NewInvestment | src/pages/Products.tsx:51-65 | the investment has the price as principal, the plan's daily profit, is active with nothing earned, and starts and is claimed now and ends `duration` days later |
| ProductsPage.PurchaseRecord | src/pages/Products.tsx:71-78 | the purchase record is an approved investment transaction for the price, naming the plan |
| ProductsPage.BuyPlan | src/pages/Products.tsx:40-84 | refused without a profile, when the wallet is below the price, or when not confirmed, writing nothing; otherwise one active investment and one approved record are added and the wallet drops by the price, never below zero |
| ProductsPage.FirstProfitAfterOneDay | src/pages/Products.tsx:60-63 | a fresh investment is first due exactly one full day after the purchase |
| ProductsPage.DefaultPlanPaysTotalReturn | src/pages/Products.tsx:24-26 | a default plan held to its end date and claimed then pays principal plus profit equal to its stated total return, and is completed |
| AdminPage.Reject | src/pages/Admin.tsx:84-92 | a missing transaction fails and nothing changes; otherwise only the status becomes rejected, whatever it was, and no balance moves |
| AdminPage.ActionList | src/pages/Admin.tsx:16-46 | the panel lists only for an admin, and then lists exactly the pending transactions of the selected type |
| AdminPage.ListedApprovalSucceeds | src/pages/Admin.tsx:48-82 | every listed transaction can be approved by the listing admin when its owner exists |
| AdminPage.LeavesQueue | src/pages/Admin.tsx:19-27 | a transaction whose status leaves pending drops off every list, and the lists are otherwise unchanged |
| AdminPage.ApprovedLeavesQueue | server.ts:46-51 | an approved transaction leaves the lists |
| AdminPage.RejectedLeavesQueue | src/pages/Admin.tsx:86 | a rejected transaction leaves the lists |
| AdminPage.JoinsQueue | src/pages/Admin.tsx:19-27 | a new pending transaction joins the list of its type and no other |
| AdminPage.WithdrawRequestJoinsQueue | src/pages/Withdraw.tsx:30-37 | an accepted withdraw request joins the withdraw list only |
| AdminPage.RechargeRequestJoinsQueue | src/pages/Recharge.tsx:23-30 | an accepted recharge request joins the recharge list only |
| AdminPage.WithdrawThenApprove | server.ts:78-83 | a withdraw requested and approved moves the amount from the main balance to the withdrawn total and leaves the recharge wallet alone |
| AdminPage.RejectedWithdrawIsNotRefunded | src/pages/Admin.tsx:86 | a rejected withdraw keeps the main balance lowered by the amount and the withdrawn total unchanged |
| AdminPage.WithdrawApprovedAsRecharge | server.ts:36-51 | a pending withdraw approved through the recharge handler succeeds and credits the recharge wallet |
| AdminPage.RejectAfterApproval | src/pages/Admin.tsx:84-92 | rejecting an approved transaction overwrites its status and keeps the credit already made |
| LoginPage.DigitsOnly | src/pages/Login.tsx:133 | the phone input keeps exactly the digits typed, each as often as typed, and nothing else; a single character is kept iff it is a digit |
| LoginPage.DigitsOnlyAppend | src/pages/Login.tsx:133 | filtering a concatenation is concatenating the filtered parts, so the digits keep the order in which they were typed |
| LoginPage.DigitsOnlyIdempotent | src/pages/Login.tsx:133 | filtering the input twice is filtering it once |
| LoginPage.SentPhoneIsTenDigits | src/pages/Login.tsx:27-29 | a phone accepted for a one-time code is exactly ten digits, all typed |
| LoginPage.UpperAscii | src/pages/Login.tsx:199 | the referral input keeps its length, has no lower-case letter left, changes nothing else and maps each lower-case letter to its capital |
| LoginPage.UpperAsciiIdempotent | src/pages/Login.tsx:199 | upper-casing twice is upper-casing once |
| LoginPage.NewUser | src/pages/Login.tsx:84-96 | the new user has zero balances, is an active non-admin, and is referred by the entered code or by nobody when it is blank |
| LoginPage.Register | src/pages/Login.tsx:67-104 | an empty name, no signed-in account, or a phone already registered is refused, writing nothing; otherwise the new user document is written under the account's uid |
| LoginPage.RegisterKeepsPhonesUnique | src/pages/Login.tsx:77-82 | registration keeps phone numbers unique |
| LoginPage.RegisterTwiceRefused | src/pages/Login.tsx:77-82 | once a phone is registered, any further registration with it is refused and changes nothing |
| LoginPage.NewUserCannotApprove | src/pages/Login.tsx:94 | a newly registered user's approval attempt is unauthorized |
| LoginPage.RegisteredReferralResolves | src/pages/Login.tsx:92 | a user registered with an existing user's code is found as that user's referee by the profit pass |
| LedgerService.Ledger.constructor | src/types.ts:1-51 | a new ledger holds no documents of any of these record shapes (the state before anything is written), and is valid and solvent |
| LedgerService.Ledger.Approve | server.ts:28-89 | the in-place approval leaves exactly the state and outcome `Server.Approve` describes |
| LedgerService.Ledger.ApproveRecharge | server.ts:28-57 | approve-recharge is `Server.Approve` on the recharge wallet |
| LedgerService.Ledger.ApproveWithdraw | server.ts:60-89 | approve-withdraw is `Server.Approve` on the withdrawn total |
| LedgerService.Ledger.SyncProfits | server.ts:94-159 | the in-place pass leaves exactly the state and outcome `Server.Sync` describes |
| LedgerService.BuildBatch | server.ts:101-150 | the loop over the investments builds exactly the batch of the whole pass |
| LedgerService.SyncOne | server.ts:103-150 | one iteration settles a due investment, credits its owner and the referrer, appends the commission record at the next id, and flags a missing owner |
| LedgerService.Ledger.RequestWithdraw | src/pages/Withdraw.tsx:17-50 | the in-place request matches `WithdrawPage.RequestWithdraw` |
| LedgerService.Ledger.RequestRecharge | src/pages/Recharge.tsx:16-38 | the in-place request matches `RechargePage.RequestRecharge` |
| LedgerService.Ledger.BuyPlan | src/pages/Products.tsx:40-84 | the in-place purchase matches `ProductsPage.BuyPlan` |
| LedgerService.Ledger.Reject | src/pages/Admin.tsx:84-92 | the in-place reject matches `AdminPage.Reject` |
| LedgerService.Ledger.Register | src/pages/Login.tsx:67-104 | the in-place registration matches `LoginPage.Register` |

## Left out

- Concurrency: two approvals can race between the pending check and the atomic unit, and two passes can overlap. The model is sequential.
- Floating point: money is exact `real`. `Number(...)` parsing of the entered amount, including `NaN` from an empty field, is not modelled; amounts arrive already parsed.
- Firebase Auth, reCAPTCHA and one-time code sending and confirmation are foreign service calls. The signed-in account is a parameter (`current`), and `SendOtpAllowed` only states the length check.
- Rendering, toasts, navigation, the confirmation dialog (an input `confirmed`), the `maxLength` of the inputs, and the newest-first ordering of the admin lists are presentation.
- Calendar semantics: `Date.setDate` in local time with daylight saving changes, and `Timestamp.toDate`, are replaced by `now + duration * DAY` on an integer clock.
- `generateReferralCode` and `formatCurrency` (`src/utils`) are not part of this model. The referral code is a parameter.
- LoginPage.Register: requires that the generated code is held by no user, because the code generator is not part of this model and unique codes are what the referrer lookup relies on.
- Server.Referrer: assumes referral codes are unique, so the one-result lookup has at most one candidate. Which duplicate `limit(1)` would pick is not modelled.
- The client profile a page reads is taken to be the user's current document. A stale profile, such as a balance changed since the page loaded, is not modelled.
- The pages' several writes run one after another (for example the withdraw record, then the debit). They are modelled as succeeding together. The case where a later write fails after an earlier one persisted is not modelled.
- The store's limit of 500 writes per batch is not modelled.
- ProductsPage.BuyPlan: keeps the store solvent only for a plan whose daily profit is non-negative, since the page copies the plan's daily profit unchecked.
- The `users` and `products` tabs of the admin panel, product deletion, and every page of the app that only reads or displays data are left out.
- LoginPage.UpperAscii: upper-cases ASCII letters only; `toUpperCase` on other letters is not modelled.
