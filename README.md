# Loyalty-points wallet engine — a Dafny model

This project models the core of a multi-tenant loyalty-points platform. Merchants
configure points settings, workers and branches. A worker credits (tops up) or
debits (redeems) the points wallet of a customer assigned to them.

The model covers:
- **The wallet engine** (`src/controllers/workerController.js`). Top-up and
  redemption are a chain of checks followed by two writes: append one transaction
  to the log, then overwrite the customer's balance and dates. Each handler is a
  module-level method that takes the store object (`db: Store.Db`) and modifies
  only it. It is proved equal to a pure step function of the ledger (`TopupSpec`,
  `RedeemSpec`). The lemmas about those functions say:
  - which requests are refused, in the handler's order;
  - what an accepted request writes;
  - that every ledger invariant survives any sequence of requests. The invariants
    are: balances never negative, entries within their schema bounds, and each
    customer's entries forming an audit chain whose last snapshot is the stored
    balance.
- **The merchant handlers** (`src/controllers/merchantController.js`):
  - the allow-list filter (a loop over the body's keys);
  - ownership-scoped updates and soft deletes of workers and branches;
  - worker creation with the unique-email check;
  - customer status changes;
  - get-or-create and upsert of the points settings;
  - the paging arithmetic the list handlers share.
- **The three records the engine touches**: merchant settings (defaults, bounds,
  one record per merchant), customers (balance, status, dates, unique phone per
  merchant) and transactions (type, amounts, snapshot, finders sorted newest first).
- **The admission chain of the auth middleware**: bearer-token extraction,
  `protect`, `restrictTo` and `optionalAuth`, with the assignment of `req.user`
  on a request object.

Inputs from outside the program are parameters:
- the current time `now`;
- the day window `[today, tomorrow)` used for the daily cap;
- the merchant's commission percent;
- fresh document ids;
- the token verifier (a function from token to claims).

Amounts: points, balances and limits are unbounded integers. Cash values, rates
and commissions are reals.

The audit chain follows the order in which entries are written to the log. That
is the order of `dTransactionDate` only when the clock passed as `now` never goes
backwards between requests. The model does not constrain `now` across calls.
The daily total `TodayDebitSum` selects entries by their date, not by their
position in the log.

## Model

| member | source | states |
|---|---|---|
| WorkerController.EffectiveMaxWallet | src/controllers/workerController.js:83-84 | The wallet ceiling is the stored `nMaxWalletBalance`; it is 10000 when there is no settings record or the stored value is 0, and it is never 0 |
| WorkerController.EffectiveMaxDaily | src/controllers/workerController.js:155-156 | The daily cap is the stored `nMaxDailyRedemption`, or 1000 when there is no record or the value is 0; never 0 |
| WorkerController.Commission | src/controllers/workerController.js:91-94 | The commission is `cash * percent / 100`: between 0 and the cash value, and `c * 100 == cash * percent` |
| WorkerController.AsWrittenCommissionIgnoresMerchantPercent | src/controllers/workerController.js:92-93 | As written the percent read from the settings is always 0, so a 500 top-up records commission 0, where 25 is due at 5 % |
| WorkerController.AsWrittenEntriesCarryNoCommission | src/controllers/workerController.js:92-94 | With the percent the handlers compute as written, every accepted top-up and every accepted redemption records commission 0, whatever the settings record holds |
| WorkerController.Touch | src/controllers/workerController.js:113-117 | The customer after a write has the new balance and last date `now`; the first date is set only on a credit and only when unset; every other field is unchanged |
| WorkerController.NewTransaction | src/controllers/workerController.js:100-110 | The created entry copies customer, merchant and branch from the customer and the worker from the caller; carries type, points, cash value, commission and the new balance as snapshot; pay status `unpaid`; dated now |
| WorkerController.TopupSpec | src/controllers/workerController.js:64-128 | `topupCustomer` as a function of the ledger: the checks in the handler's order, then the entry and the customer record it writes. Its properties are the rows `TopupRejections`, `TopupAccepted`, `TopupCommitted` and `TopupPreservesValid` |
| WorkerController.TopupRejections | src/controllers/workerController.js:64-89 | A top-up is refused with 400 iff an amount is missing, zero or negative; then with 404 iff the customer is missing, not assigned to the worker, or not active; then iff balance + points exceeds the effective ceiling, reporting that ceiling; a refusal changes nothing |
| WorkerController.TopupAccepted | src/controllers/workerController.js:96-117 | An accepted top-up has new balance = old + points ≤ ceiling, appends exactly one credit entry whose snapshot is the new balance, and changes only that customer's balance and dates |
| WorkerController.TopupCommitted | src/controllers/workerController.js:97-117 | When all checks pass, the top-up writes exactly the credit entry with the new balance as snapshot and the customer record updated by `Touch`, and the resulting ledger is valid |
| WorkerController.TopupPreservesValid | src/controllers/workerController.js:97-117 | A top-up keeps the ledger invariants: non-negative balances, unique phone per merchant, entries within schema bounds, and each customer's audit chain ending at the stored balance |
| WorkerController.RedeemSpec | src/controllers/workerController.js:131-222 | `redeemFromCustomer` as a function of the ledger and the day window. Its properties are the rows `RedeemRejections`, `RedeemBalanceCheckedFirst`, `RedeemAccepted`, `RedeemCommitted` and `RedeemPreservesValid` |
| WorkerController.RedeemRejections | src/controllers/workerController.js:131-184 | A redemption is refused iff: first, an amount is invalid; then the customer is not accessible; then the balance is below the points; then today's debit total + points exceeds the effective cap, and that refusal reports the effective cap. A refusal changes nothing |
| WorkerController.RedeemBalanceCheckedFirst | src/controllers/workerController.js:149-156 | When the balance does not cover the points the answer is `Insufficient wallet balance` whatever the settings and the day's earlier redemptions |
| WorkerController.RedeemAccepted | src/controllers/workerController.js:180-211 | An accepted redemption has new balance = old − points ≥ 0; today's debit total grows by exactly the points and stays within the cap; exactly one debit entry is appended; the first-transaction date is untouched |
| WorkerController.RedeemCommitted | src/controllers/workerController.js:192-211 | When all checks pass, the redemption writes exactly the debit entry and the updated customer record; the ledger stays valid; today's total grows by the points |
| WorkerController.RedeemPreservesValid | src/controllers/workerController.js:191-211 | A redemption keeps every ledger invariant |
| WorkerController.CommissionDoesNotAffectBalance | src/controllers/workerController.js:186-192 | The commission percent changes neither the decision, nor the new balance, nor any customer record, for top-ups and redemptions alike |
| WorkerController.AppendPreservesValid | src/controllers/workerController.js:100-117 | Appending an entry that continues the customer's chain and storing its snapshot as the balance keeps the ledger valid |
| WorkerController.RunPreservesValid | src/controllers/workerController.js:63-222 | After any sequence of top-ups and redemptions, accepted or refused, the ledger is valid and every balance is non-negative |
| WorkerController.Commit | src/controllers/workerController.js:99-117 | The two writes in order: the log gets the entry appended, then the customer record is overwritten; nothing else changes |
| WorkerController.Topup | src/controllers/workerController.js:64-128 | The handler's response and the new store are exactly what `TopupSpec` gives for the old store; the store stays valid; on success the snapshot equals the new balance and the stored balance |
| WorkerController.Redeem | src/controllers/workerController.js:131-222 | The same for `RedeemSpec`; on success the balance is non-negative and today's debit total is within the cap |
| WorkerController.Matching | src/controllers/workerController.js:240-241 | The listing query holds exactly the customer's entries, restricted to the requested type when a non-empty type is given, and never more entries than the log |
| WorkerController.MatchingAppend | src/controllers/workerController.js:240-251 | An entry appended to the log is appended to the listing iff it matches the query, so `countDocuments` counts every matching entry, repeats included |
| WorkerController.MatchingAllTypes | src/controllers/workerController.js:240-241 | Without a type filter the listing is, entry for entry and in log order, the selection on the customer reference |
| WorkerController.CustomerTransactions | src/controllers/workerController.js:225-266 | Refused with 404 iff the customer is missing or not assigned to the worker (status not checked); otherwise the page is the `skip`/`limit` window of the matching entries sorted newest first, with total and page count |
| MerchantController.FilterBody | src/controllers/merchantController.js:122-127 | The filtered body has exactly the allowed keys of the request body, each with its value from the body |
| MerchantController.UpdateOwnedSpec | src/controllers/merchantController.js:129-148 | The ownership-scoped `findOneAndUpdate` of `updateWorker` and `updateBranch` on the old table. Its properties are the rows `UpdateOwnedEffect` and `UpdateKeepsEmails` |
| MerchantController.UpdateOwnedEffect | src/controllers/merchantController.js:129-148 | An update fails iff a truthy reference field names no document of the merchant, or the target is not the merchant's; otherwise only the target changes: the filtered fields hold the body's values, all other fields and the owner stay |
| MerchantController.UpdateKeepsEmails | src/controllers/merchantController.js:113-120 | The worker allow-list has no `sEmail`, so an update keeps email uniqueness |
| MerchantController.UpdateWorker | src/controllers/merchantController.js:112-158 | `updateWorker`: 404 with no change when the branch is foreign or the worker not owned; otherwise the merged worker is stored and returned; store stays valid |
| MerchantController.UpdateBranch | src/controllers/merchantController.js:253-300 | `updateBranch`: the same, with the assigned worker as the reference checked |
| MerchantController.Deactivated | src/controllers/merchantController.js:161-165 | A soft-deleted document has `sStatus` = `inactive`, the same owner and every other field unchanged |
| MerchantController.DeleteWorker | src/controllers/merchantController.js:160-177 | 404 with no change iff the worker is not the merchant's; otherwise it is deactivated, and no worker is ever removed |
| MerchantController.DeleteBranch | src/controllers/merchantController.js:302-319 | The same for branches |
| MerchantController.CreateWorker | src/controllers/merchantController.js:44-89 | An email on file (compared lower-cased) is refused with 400 before any write; when the email is free, a truthy branch that is not the merchant's gives exactly the 404 `RefNotOwned`; otherwise one worker with the lower-cased email is added, the stored email is in lower-case form, and emails stay unique |
| MerchantController.UpdateCustomerStatus | src/controllers/merchantController.js:377-402 | 400 iff the status is neither `active` nor `inactive`; then 404 iff the customer is not the merchant's; otherwise it succeeds, and only its status changes; the ledger stays valid |
| MerchantController.StoreCustomer | src/controllers/merchantController.js:384-388 | Overwriting one customer record changes only that record and keeps the store valid |
| MerchantController.StatusChangeKeepsValid | src/controllers/merchantController.js:384-388 | Changing only a customer's status keeps every ledger invariant |
| MerchantController.GetOrCreateSpec | src/controllers/merchantController.js:465-473 | `getPointsSettings`' find-or-create on the settings collection. Its properties are the rows `GetOrCreateEffect` and `GetOrCreateIdempotent` |
| MerchantController.GetOrCreateEffect | src/controllers/merchantController.js:465-473 | Get-or-create returns the existing record and changes nothing, or appends exactly the default record; then the merchant has one record, the one returned |
| MerchantController.GetOrCreateIdempotent | src/controllers/merchantController.js:465-473 | A second get-or-create returns the same record and leaves the collection as the first left it |
| MerchantController.AppendFresh | src/controllers/merchantController.js:470-472 | Creating a record for a merchant without one keeps uniqueness and bounds |
| MerchantController.GetPointsSettings | src/controllers/merchantController.js:465-481 | `getPointsSettings` on the store does get-or-create; afterwards `findByMerchant` returns the result and the merchant has exactly one record |
| MerchantController.ApplySettingsUpdate | src/controllers/merchantController.js:498-506 | An update through the validators is accepted exactly when every field the body carries passes its cast and minimum (`SettingsBodyValid`); it keeps the owner and, when accepted, keeps the record within the schema's bounds |
| MerchantController.Replace | src/controllers/merchantController.js:498-506 | Replacing the merchant's record leaves the length of the collection and every other merchant's record unchanged |
| MerchantController.ApplySettingsUpdateFields | src/controllers/merchantController.js:498-506 | In an accepted update each filtered field holds the body's value (cast) and every unmentioned field keeps its previous value |
| MerchantController.UpsertRecords | src/controllers/merchantController.js:498-506 | After an accepted upsert the merchant has exactly one record, the one returned; other merchants' lookups are unchanged; the collection stays valid |
| MerchantController.UpsertSpec | src/controllers/merchantController.js:498-506 | The `findOneAndUpdate(..., { upsert: true, runValidators: true })` of the settings. Its properties are the rows `UpsertAccepts`, `UpsertRecords`, `UpsertEffect` and `UpsertKeepsValid` |
| MerchantController.UpsertEffect | src/controllers/merchantController.js:483-506 | The upserted record is the filtered update applied to the existing record, or to the default record when there is none; it is the merchant's only record, and the collection stays valid. The upsert is refused, as a validation failure, exactly when the body fails the validators |
| MerchantController.UpsertAccepts | src/controllers/merchantController.js:498-506 | The upsert is accepted exactly when the filtered body passes the schema's validators, whether or not a record exists |
| MerchantController.UpsertKeepsValid | src/models/merchantSettingsModel.js:8-48 | An accepted upsert keeps one record per merchant and every record within bounds |
| MerchantController.ReplaceEffect | src/controllers/merchantController.js:498-506 | Replacing the unique record keeps the collection valid and other merchants' lookups unchanged |
| MerchantController.UpdatePointsSettings | src/controllers/merchantController.js:483-516 | `updatePointsSettings` filters the body to the four settings fields and stores exactly what the upsert gives; it succeeds exactly when the filtered body passes the validators, and a refused value changes nothing |
| MerchantSettingsModel.Default | src/models/merchantSettingsModel.js:10-33 | A new record has rate 1, wallet ceiling 10000, daily cap 1000, customer limit 1000, and is within bounds |
| MerchantSettingsModel.CountFor | src/models/merchantSettingsModel.js:48 | A merchant's record count is 0 exactly when no record has that merchant |
| MerchantSettingsModel.FindByMerchant | src/models/merchantSettingsModel.js:57-59 | `findByMerchant` is none iff the merchant has no record; otherwise a record of the collection with that merchant |
| MerchantSettingsModel.UniqueLookup | src/models/merchantSettingsModel.js:48-59 | Under the unique index, a record of the merchant is exactly what `findByMerchant` returns, and it is the only one |
| MerchantSettingsModel.AtMostOne | src/models/merchantSettingsModel.js:4-9 | Under the unique index no merchant has more than one record |
| CustomerModel.ParseStatus | src/models/customerModel.js:59-63 | A status string is accepted iff it is `active` or `inactive`, and reads back as itself |
| CustomerModel.NewCustomer | src/models/customerModel.js:27-63 | A new customer has balance 0, status `active`, registration date now, no transaction dates, and the given merchant, branch and optional worker |
| CustomerModel.FindByWorker | src/models/customerModel.js:102-104 | Exactly the customers whose assigned worker is the given id, each as often as it occurs in the collection |
| CustomerModel.FindByMerchant | src/models/customerModel.js:94-96 | Exactly the customers of the merchant, each as often as it occurs in the collection |
| CustomerModel.FindByBranch | src/models/customerModel.js:98-100 | Exactly the customers of the branch, each as often as it occurs in the collection |
| TransactionModel.Apply | src/controllers/workerController.js:97 | A credit raises the balance by its points, a debit lowers it by them |
| TransactionModel.Select | src/models/transactionModel.js:90-104 | Filtering on one reference keeps exactly the entries carrying that id, in log order |
| TransactionModel.InsertByDate | src/models/transactionModel.js:91 | Inserting into a newest-first list keeps it newest first and adds exactly that one entry |
| TransactionModel.SortNewestFirst | src/models/transactionModel.js:91 | `sort({ dTransactionDate: -1 })` gives a newest-first permutation of its input |
| TransactionModel.FindBy | src/models/transactionModel.js:90-104 | The finders are a newest-first permutation of the filtered entries |
| TransactionModel.FindByCustomer | src/models/transactionModel.js:90-92 | Exactly the customer's entries, newest first, each as often as it occurs in the log (a permutation of the selection) |
| TransactionModel.FindByMerchant | src/models/transactionModel.js:94-96 | Exactly the merchant's entries, newest first, each as often as it occurs in the log (a permutation of the selection) |
| TransactionModel.FindByBranch | src/models/transactionModel.js:98-100 | Exactly the branch's entries, newest first, each as often as it occurs in the log (a permutation of the selection) |
| TransactionModel.FindByWorker | src/models/transactionModel.js:102-104 | Exactly the worker's entries, newest first, each as often as it occurs in the log (a permutation of the selection) |
| Audit.ChainedAppend | src/controllers/workerController.js:100-109 | An entry whose snapshot continues the last one extends the audit chain, and its snapshot becomes the last balance |
| Audit.ChainedReplay | src/models/transactionModel.js:53-57 | Replaying a chained log's credits and debits from 0 gives its last snapshot |
| Audit.TodayDebitSum | src/controllers/workerController.js:164-180 | The `$match`/`$sum` aggregation: the points of the customer's debits dated in `[today, tomorrow)`, 0 when there are none. Its properties are the rows `TodayDebitSumAppend` and `TodayDebitSumNonNegative` |
| Audit.TodayDebitSumAppend | src/controllers/workerController.js:164-180 | An appended entry adds its points to today's total iff it is a debit of that customer dated in the window |
| Audit.TodayDebitSumNonNegative | src/controllers/workerController.js:164-180 | Over well-formed entries today's total is never negative |
| Pagination.OrDefault | src/controllers/merchantController.js:12-13 | `parseInt(x) \|\| d` is `d` for an absent or zero value and the value otherwise |
| Pagination.ReadPaging | src/controllers/merchantController.js:12-14 | Page is the given page and limit the given limit, each falling back (to 1 and 10) when absent or 0, and `skip = (page - 1) * limit` |
| Pagination.PageCount | src/controllers/merchantController.js:36 | `pages` is the ceiling of `total / limit`: the least page count that holds every item |
| Pagination.Window | src/controllers/merchantController.js:23-24 | `.skip(skip).limit(limit)`: at most `limit` items, the ones from position `skip` on |
| Pagination.PageNonEmptyIff | src/controllers/merchantController.js:32-37 | A page holds something iff its number is at most `pages` |
| Pagination.ItemOnPage | src/controllers/merchantController.js:19-37 | Every item appears on page `i / limit + 1` at offset `i % limit` |
| Common.Lower | src/models/workerModel.js:102-104 | Lower-casing keeps the length and maps each character; ASCII letters become lower-case |
| Common.LowerIdempotent | src/models/workerModel.js:17-27 | Lower-casing twice is lower-casing once; `CreateWorker` uses it to show that the email it stores is in the lower-case form the schema's `lowercase: true` keeps |
| AuthMiddleware.ParseRole | src/middlewares/authMiddleware.js:27-39 | The role string dispatches to admin, merchant or worker exactly for those three names |
| AuthMiddleware.UpToSpace | src/middlewares/authMiddleware.js:13 | The field taken by `split(' ')` is the longest prefix with no space |
| AuthMiddleware.BearerToken | src/middlewares/authMiddleware.js:11-14 | A token is found only in a header starting with `Bearer`, and is non-empty and space-free |
| AuthMiddleware.BearerRoundTrip | src/middlewares/authMiddleware.js:12-13 | The header `Bearer <token>` yields exactly that token |
| AuthMiddleware.NoTokenWithoutSeparator | src/middlewares/authMiddleware.js:12-17 | A header without a space, or `Bearer` followed by two spaces, gives no token (401) |
| AuthMiddleware.Protect | src/middlewares/authMiddleware.js:9-66 | `protect` as a function of the header, the token verifier and the accounts. Its properties are the rows `ProtectAdmission` and `ProtectStatusScenarios` |
| AuthMiddleware.ProtectAdmission | src/middlewares/authMiddleware.js:9-66 | `protect` admits exactly a verified token of a known role whose account exists and whose status the role admits. The user set carries the account's id, role, email and status. A missing token is exactly the 401 `not logged in`; every refusal except a rejected token is a 401, so `protect` never answers 403 |
| AuthMiddleware.ProtectStatusScenarios | src/middlewares/authMiddleware.js:47-55 | A `pending` merchant with a valid token is refused as not approved; an administrator is admitted whatever its status |
| AuthMiddleware.RestrictTo | src/middlewares/authMiddleware.js:69-76 | `restrictTo` passes the user on iff its role is listed, otherwise 403 |
| AuthMiddleware.OptionalAuth | src/middlewares/authMiddleware.js:79-123 | `optionalAuth` as a function of the same inputs. Its properties are the row `OptionalAuthAgreesWithProtect` |
| AuthMiddleware.OptionalAuthAgreesWithProtect | src/middlewares/authMiddleware.js:79-123 | `optionalAuth` never fails. It sets a user exactly when `protect` gets past the existence check, and then the same user, with no status check |
| AuthMiddleware.Request.RunProtect | src/middlewares/authMiddleware.js:57-65 | On admission `req.user` is set to the admitted user; on refusal the request is unchanged |
| AuthMiddleware.Request.RunOptionalAuth | src/middlewares/authMiddleware.js:106-122 | `req.user` is set when a user is found and left alone otherwise |

## Left out

- Concurrency: the handlers do check-then-act with two separate writes. The model runs each request as one sequential step on one store. Lost updates between the two writes are not modelled.
- Floating point: cash values, rates and commissions are exact reals, not IEEE doubles.
- WorkerController.TopupSpec, WorkerController.RedeemSpec and Store.AuditHolds: they are exact only while points, balances and sums stay below 2^53. In the source these are JavaScript numbers (doubles). The wallet ceiling is validated only as `isInt({ min: 0 })`, so a merchant can set one above 2^53. There, `balance + nPoints` at src/controllers/workerController.js:97 would round; for example, 2^53 + 1 gives 2^53. The snapshot written at :109 would then break the audit chain. The model's unbounded integers never round.
- Clock and time zone: `new Date()` and `setHours(0, 0, 0, 0)` are replaced by the parameters `now`, `today` and `tomorrow`, with `today <= now < tomorrow`. This covers any local day, including one of 23 or 25 hours.
- Token signing and verification: `jwt.verify` is the parameter `verify`. Which status the application's error handler gives a refused token is not part of this model.
- Password hashing, logging, `populate`/`lean`/`select` projections and the `dUpdatedAt` save hooks are not modelled.
- The route validators are not modelled. The paging bounds (`page >= 1`, `1 <= limit <= 100`) are assumed, as the precondition `QueryAdmitted`.
- WorkerController.TxRequest: points and cash values are assumed to arrive as numbers (a JSON body). `isInt` and `isFloat` check without converting, and URL-encoded bodies are parsed too, so a string such as `"50"` can reach the handlers. There `balance + nPoints` and `totalRedeemedToday + nPoints` would concatenate strings. For example, 100 plus `"50"` gives `"10050"`, which exceeds 10000 and is refused. `TopupSpec` and `RedeemSpec` add numbers instead.
- MerchantController.CastRate: the rate is accepted only as a number. A numeric string such as `"2.5"`, which `isFloat` and the schema cast would accept and store, is refused here.
- MerchantController.ApplySettingsUpdate: the three limits are accepted only as whole numbers. A fractional number or a numeric string, which the schema would cast and store, is refused here, because the engine compares limits as integers.
- MerchantController.UpdateOwnedEffect: does not model the schema validators that `runValidators` runs on worker and branch updates: the `sStatus` enum, the required and maxlength rules, and the casts of the reference fields. The worker and branch schemas are not part of this model.
- MerchantController.CreateWorker: the email is lower-cased but not trimmed, and only ASCII letters are lower-cased. Name, phone number and password are not modelled. The branch is stored only when truthy.
- The other list handlers (`getMyCustomers`, `getAllWorkers`, `getAllBranches`, `getAllCustomers`, `getAllTransactions`) and the single-record reads (`getCustomerById`, `getWorkerById`, `getTransactionById`) are not modelled. Their paging arithmetic is the shared `Pagination` module. `createBranch` is not modelled either.
- WorkerController.CustomerTransactions: entries with equal `dTransactionDate` are placed in the one order `SortNewestFirst` gives. MongoDB leaves the order of ties unspecified, so across pages the model's page is one possible outcome among several.
- No handler in the repository creates customers. `NewCustomer` states the schema defaults, and the unique (phone, merchant) index is a store invariant.
- `restrictTo` is modelled on the user that `protect` set. Its behaviour on a request without a user (a thrown `TypeError`) is not modelled.

## Findings

| source | as written | input that shows it | evidently intended | confidence | as-written member | corrected member |
|---|---|---|---|---|---|---|
| src/controllers/workerController.js:92-93 (and :187-188) | The commission percent is read from the settings record's `nCommissionPercent`, a field that record does not have (src/models/merchantSettingsModel.js:3-45), so `undefined \|\| 0` makes every commission 0 | A merchant whose configured commission is 5 % tops up 500 cash: the entry records commission 0 | The merchant's own commission percent (src/models/merchantModel.js:61-66) applied to the cash value, giving 25 | high, not executed | WorkerController.AsWrittenEntriesCarryNoCommission | WorkerController.Commission |
