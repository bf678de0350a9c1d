# Co-authorship purchase flow — a Dafny model

This project models the purchase, inventory and settlement logic of a
publishing storefront. The storefront sells a limited number of
"co-authorship positions" in upcoming books and takes payment through the
PhonePe gateway. The model holds two tables, `upcoming_books` and
`authorship_purchases`, plus the `user_roles` table. It also holds the route
handlers and page logic that read and write them:

- **Order intake** (`POST /api/orders/create`) runs a chain of guards and
  then inserts one `pending` purchase. It only reads the book's counter.
- **Two settlement handlers.**
  - The checkout callback asks PhonePe for the status, finds the purchase
    by `payment_id`, writes `success`/`failed` and decrements on success.
  - The payments webhook trusts the posted body, updates the purchase by
    `id` and decrements on success.
- **Payment initiation.** Two routes build a PhonePe pay request: one
  signed with an X-VERIFY checksum, one unsigned with a fallback chain for
  the checkout URL.
- **Admin routes.** Book list, create and partial update, and the
  first-admin bootstrap.
- **Page logic.** The result-page status mapping, the purchase form's
  total, choices and button, the purchase page's clamp, total, Pay button
  and two-step write, and the dashboard's totals and status classifier.

Layout, one module per file:

- `js_values.dfy` (`JsValues`): JSON values and the JavaScript coercions the
  handlers rely on (`||`, `??`, `?.`, `Number`, `parseInt`, `String`,
  `Math.round`).
- `tables.dfy` (`Tables`, `Http`): rows, row matching, the abstract
  decrement procedure, and reply shapes.
- `phonepe.dfy` (`PhonePe`): environment variables, foreign functions
  (SHA-256, base64, `JSON.stringify`) and the X-VERIFY layout.
- One module per route or page.
- `store.dfy` (`Store`): the tables as a class. Its methods run each
  state-changing route step by step. Each method is proved to leave exactly
  the store its route's function describes.
- `admin_bootstrap.dfy`: the role table as a class with the grant method.
- `flows.dfy` (`Flows`): what happens when handlers run one after another.
  It covers replayed settlements, two orders against the same stock,
  status words that do not line up, and the key each settlement handler
  matches on.

Each handler is a function from the store before the call (plus the
request and the outside world's answers) to the store after the call and
the reply. Database errors, generated ids, the clock and PhonePe's
answers are parameters, so every branch of the source is reachable.

The model follows the code where it falls short of what the flow needs:

- Intake does not check that the book is published.
- Intake reserves nothing.
- Neither settlement handler checks the purchase's previous status, so a
  replayed success decrements again.
- The webhook checks no signature.
- Admin create accepts `available > total` and negative counts.
- Admin create does not test for a duplicate slug; a clash is a database
  error like any other.
- The decrement procedure's body is not part of the repository. The model
  treats it as an arbitrary function of (available, n) and assumes no
  clamping.

## Model

| member | source | states |
|---|---|---|
| `OrderIntake.Intake` | app/api/orders/create/route.ts:10-85 | the intake handler; its outcomes are stated by `MissingFieldsFirst`, `UnauthenticatedRejected`, `UnknownSlugRejected`, `AcceptedOrder`, `IntakeNeverReserves` and `IntakeAppendsAtMostOne` |
| `OrderIntake.Admit` | app/api/orders/create/route.ts:51-81 | the guards after the lookup, and the insert; stated by `InvalidPositionsRejected`, `AvailabilityBoundary` and `AcceptedOrder` |
| `OrderIntake.MissingFieldsFirst` | app/api/orders/create/route.ts:13-16 | a falsy `bookSlug`, `count`, `email` or `phone` gives 400 "Missing fields" whatever the caller and the tables, with no write |
| `OrderIntake.UnauthenticatedRejected` | app/api/orders/create/route.ts:36-40 | no signed-in user gives 401 and the store is unchanged |
| `OrderIntake.UnknownSlugRejected` | app/api/orders/create/route.ts:42-49 | a slug no book carries gives 404 and no insert |
| `OrderIntake.LookupIgnoresStatus` | app/api/orders/create/route.ts:42-46 | two stores that differ only in book statuses get the same reply: the lookup does not filter on status |
| `OrderIntake.InvalidPositionsRejected` | app/api/orders/create/route.ts:51-54 | a count whose `Number` is non-finite or not positive gives 400 "Invalid positions requested" and no insert |
| `OrderIntake.AvailabilityBoundary` | app/api/orders/create/route.ts:55-57 | 400 "Not enough positions available" if and only if available < positions, so `positions == available` passes |
| `OrderIntake.AcceptedOrder` | app/api/orders/create/route.ts:59-81 | on success exactly one row is appended: pending, requested positions (fractions allowed), amount = price × positions, `payment_id` = the drawn transaction id; the reply repeats that amount and id |
| `OrderIntake.IntakeNeverReserves` | app/api/orders/create/route.ts:42-72 | whatever the outcome, `upcoming_books` is unchanged |
| `OrderIntake.IntakeAppendsAtMostOne` | app/api/orders/create/route.ts:62-76 | the purchases table is unchanged on every rejection and gains exactly one trailing row on acceptance |
| `OrderIntake.IntakeKeepsIdsUnique` | app/api/orders/create/route.ts:62-76 | intake keeps purchase ids unique (a primary-key clash is the insert error branch) |
| `Store.Store.CreateOrder` | app/api/orders/create/route.ts:10-85 | the guard chain and insert on the mutable store leave exactly the store and reply of `OrderIntake.Intake` |
| `CheckoutCallback.HandleCallback` | app/api/checkout/phonepe/callback/route.ts:18-95 | the checkout callback; its outcomes are stated by `EarlyExitsAreErrors`, `ThrownIsError`, `NoMatchNoWrites`, `MatchedStatusOverwritten` and `DecrementIffSuccess` |
| `CheckoutCallback.EarlyExitsAreErrors` | app/api/checkout/phonepe/callback/route.ts:21-32 | a missing or empty `mtid`, or any unset PhonePe variable, redirects with `status=error`, sends nothing and writes nothing |
| `CheckoutCallback.StatusChecksumLayout` | app/api/checkout/phonepe/callback/route.ts:34-50 | the status request goes to `BASE_URL + /pg/v1/status/{MERCHANT_ID}/{mtid}` with X-VERIFY = sha256hex(path + SALT_KEY) + "###" + SALT_INDEX |
| `CheckoutCallback.Verdict` | app/api/checkout/phonepe/callback/route.ts:57-59 | the status word the handler writes and redirects with; what it means is stated by `VerdictReadsStatusFields` (only four fields of the answer decide), `SuccessPredicateExamples`, `DecrementIffSuccess` (the one word drives the write, the redirect and the decrement) and `Flows.SettlementTestsDisagree` |
| `CheckoutCallback.IsPaymentSuccess` | app/api/checkout/phonepe/callback/route.ts:57-59 | the success test; stated by `SuccessPredicateExamples` (each disjunct alone suffices, strict comparisons) and `VerdictReadsStatusFields` |
| `CheckoutCallback.VerdictReadsStatusFields` | app/api/checkout/phonepe/callback/route.ts:57-59 | two answers that agree on `success`, `code`, `data.state` and `data.responseCode` get the same verdict, and every verdict is `success` or `failed` |
| `CheckoutCallback.SuccessPredicateExamples` | app/api/checkout/phonepe/callback/route.ts:57-59 | each disjunct alone makes a success; a string "true" or `success: true` with another code does not |
| `CheckoutCallback.ThrownIsError` | app/api/checkout/phonepe/callback/route.ts:92-94 | a failed fetch or unreadable answer redirects with `status=error` and writes nothing |
| `CheckoutCallback.NoMatchNoWrites` | app/api/checkout/phonepe/callback/route.ts:61-72 | with no purchase carrying `payment_id = mtid`, the redirect carries the verdict and `mtid`, and the store is unchanged |
| `CheckoutCallback.MatchedStatusOverwritten` | app/api/checkout/phonepe/callback/route.ts:74-79 | the matched row's `payment_status` becomes the verdict whatever it was; no other row or column changes |
| `CheckoutCallback.DecrementIffSuccess` | app/api/checkout/phonepe/callback/route.ts:81-86 | the purchase's book is decremented by its positions exactly when the verdict is success, with no test of the prior status |
| `CheckoutCallback.StatusWriteKeepsPaymentMatches` | app/api/checkout/phonepe/callback/route.ts:74-79 | writing a status leaves the set of rows matched by `payment_id` unchanged, so a replay finds the same row |
| `Store.Store.SettleCheckout` | app/api/checkout/phonepe/callback/route.ts:18-95 | the handler on the mutable store gives exactly the store, request and redirect of `CheckoutCallback.HandleCallback` |
| `PaymentsCallback.HandlePayment` | app/api/payments/phonepe/callback/route.ts:4-42 | the webhook handler; its outcomes are stated by `UnparseableRejected`, `MissingOrderIdRejected`, `UnknownOrderIdIgnored`, `MatchedById` and `UnsignedBodySettles` |
| `PaymentsCallback.OrderId` | app/api/payments/phonepe/callback/route.ts:15 | the order-id chain; stated by `ExtractionChains` |
| `PaymentsCallback.PaymentIdOf` | app/api/payments/phonepe/callback/route.ts:17 | the payment-id chain; stated by `ExtractionChains` |
| `PaymentsCallback.ExtractionChains` | app/api/payments/phonepe/callback/route.ts:15-17 | `orderId` is the first truthy of `data.merchantTransactionId`, `merchantTransactionId`, else `orderId`; `paymentId` the first truthy of `data.transactionId`, `transactionId`, else null |
| `PaymentsCallback.SettledStatus` | app/api/payments/phonepe/callback/route.ts:16 | the status word the webhook writes; what it means is stated by `SettledStatusReadsCodeAndSuccess` (only `code` and the truthiness of `success` decide), `SettledStatusExamples`, `MatchedById` (the word drives the write and the decrement) and `Flows.SettlementTestsDisagree` |
| `PaymentsCallback.SettledStatusExamples` | app/api/payments/phonepe/callback/route.ts:16 | any truthy `success` (a string, a number) or the code `PAYMENT_SUCCESS` gives success; otherwise failed |
| `PaymentsCallback.SettledStatusReadsCodeAndSuccess` | app/api/payments/phonepe/callback/route.ts:16 | two bodies that agree on `code` and on whether `success` is truthy get the same status, whatever their ids, and the status is `success` or `failed` |
| `PaymentsCallback.UnparseableRejected` | app/api/payments/phonepe/callback/route.ts:12-19 | an unparseable body reads as `{}`, gets 400 `{ok:false}` and causes no write |
| `PaymentsCallback.MissingOrderIdRejected` | app/api/payments/phonepe/callback/route.ts:19 | without a truthy order id: 400 `{ok:false}` and no write |
| `PaymentsCallback.UnknownOrderIdIgnored` | app/api/payments/phonepe/callback/route.ts:22-38 | an order id that is no purchase's `id` gets `{ok:true}` and the store is unchanged |
| `PaymentsCallback.MatchedById` | app/api/payments/phonepe/callback/route.ts:22-36 | the purchase with `id = orderId` gets the status and the extracted payment id (possibly null); no other row changes; its book is decremented exactly on success |
| `PaymentsCallback.AtMostOneIdMatch` | app/api/payments/phonepe/callback/route.ts:25-27 | with unique ids, the update matches at most one purchase |
| `PaymentsCallback.UnsignedBodySettles` | app/api/payments/phonepe/callback/route.ts:13 | a forged unsigned body `{orderId, success: true}` marks the purchase success and decrements its book |
| `Store.Store.SettlePayment` | app/api/payments/phonepe/callback/route.ts:4-42 | the webhook on the mutable store gives exactly the store and reply of `PaymentsCallback.HandlePayment` |
| `AdminBooks.ListBooks` | app/api/admin/books/route.ts:5-31 | the `GET` route; stated by `ListingIsNewestFirst` |
| `AdminBooks.CreateBook` | app/api/admin/books/route.ts:33-96 | the `POST` route; stated by `CreateRequiresFields`, `CreateDefaults`, `CountConversionExamples` and `CreateChecksNoBounds` |
| `AdminBooks.NewBook` | app/api/admin/books/route.ts:71-84 | the inserted row; stated by `CreateDefaults` |
| `AdminBooks.PatchBook` | app/api/admin/books/route.ts:98-138 | the `PATCH` route; stated by `PatchRequiresId`, `PatchUnknownId`, `PatchTypedSubset` and `PatchIgnoresNumericText` |
| `AdminBooks.PatchFields` | app/api/admin/books/route.ts:124-128 | the typed subset of the update object; stated by `PatchTypedSubset` and `PatchIgnoresNumericText` |
| `AdminBooks.ListingIsNewestFirst` | app/api/admin/books/route.ts:24-30 | the listing holds every book exactly once (same multiset), ordered by `created_at` descending, and writes nothing |
| `AdminBooks.CreateRequiresFields` | app/api/admin/books/route.ts:46-50 | 400 "Missing required fields" if and only if `title` or `slug` is falsy or `pricePerPosition` is not a number; a null body reads as `{}` |
| `AdminBooks.CreateDefaults` | app/api/admin/books/route.ts:71-92 | an accepted insert appends one row: the database's id and timestamp, slug, title and price as sent, status `published`, optional texts as sent when truthy and null when falsy, counts `Number(x) or 0`, available defaulting to the total when absent |
| `AdminBooks.CountConversionExamples` | app/api/admin/books/route.ts:80-81 | "ten" gives 0, " 12 " gives 12, an explicit 0 available stays 0, a missing available takes the total |
| `AdminBooks.CreateChecksNoBounds` | app/api/admin/books/route.ts:80-82 | available 7 over total 3, with a negative price, is inserted as sent |
| `AdminBooks.PatchRequiresId` | app/api/admin/books/route.ts:100-102 | 400 "Missing id" if and only if `id` is falsy, with no write |
| `AdminBooks.PatchUnknownId` | app/api/admin/books/route.ts:129-134 | an id no book has gives `{book: null}` with a success status and no write |
| `AdminBooks.PatchTypedSubset` | app/api/admin/books/route.ts:122-134 | the matched book changes only in `available_positions`/`price_per_position` (when numbers) and `status` (when a string), everything else is unchanged and the reply is the row; a request with no typed field writes nothing and answers `{book: null}` |
| `AdminBooks.PatchIgnoresNumericText` | app/api/admin/books/route.ts:124-134 | a numeric string for `available_positions` changes no column; as the only field it makes an empty update, answered `{book: null}` with no write |
| `Store.Store.CreateBook` | app/api/admin/books/route.ts:33-96 | the insert on the mutable store gives exactly the store and reply of `AdminBooks.CreateBook` |
| `Store.Store.PatchBook` | app/api/admin/books/route.ts:98-138 | the in-place update gives exactly the store and reply of `AdminBooks.PatchBook` |
| `AdminBootstrap.Bootstrap` | app/api/admin/bootstrap/route.ts:5-51 | the bootstrap route; stated by `NoUserRejected`, `GrantIff`, `PrefixKept`, `OnceAdminAlwaysNoop` and `AtMostOneGrant` |
| `AdminBootstrap.RoleTable.Grant` | app/api/admin/bootstrap/route.ts:5-51 | the guarded scan and at most one insert leave exactly the table and reply of `Bootstrap` |
| `AdminBootstrap.NoUserRejected` | app/api/admin/bootstrap/route.ts:25-29 | no caller gives 401 and the table is unchanged |
| `AdminBootstrap.GrantIff` | app/api/admin/bootstrap/route.ts:34-47 | the table changes if and only if there is a caller, no lookup error, no admin yet and no insert error |
| `AdminBootstrap.PrefixKept` | app/api/admin/bootstrap/route.ts:41-44 | existing rows are never changed or removed; the only possible addition is `{user_id: caller, role: admin}` |
| `AdminBootstrap.OnceAdminAlwaysNoop` | app/api/admin/bootstrap/route.ts:37-39 | once an admin exists, any sequence of later calls leaves the table unchanged |
| `AdminBootstrap.AtMostOneGrant` | app/api/admin/bootstrap/route.ts:37-44 | however many calls run in sequence, at most one admin row is ever added |
| `CheckoutPay.CreateCheckout` | app/api/checkout/phonepe/route.ts:12-65 | the signed pay route; stated by `MissingParamsRejected`, `PayloadFields`, `AmountInPaise`, `PayChecksumLayout` and `ResponseCheck` |
| `CheckoutPay.Paise` | app/api/checkout/phonepe/route.ts:30 | the amount in paise; stated by `AmountInPaise` |
| `CheckoutPay.MissingParamsRejected` | app/api/checkout/phonepe/route.ts:17-19 | 400 "Missing params", with no request to PhonePe, if and only if one of the four parameters is falsy |
| `CheckoutPay.PayloadFields` | app/api/checkout/phonepe/route.ts:26-35 | `merchantUserId` = String(userId or "guest"); redirect and callback URLs are equal, `base + /api/checkout/phonepe/callback?mtid= + mtid`, with the localhost default |
| `CheckoutPay.AmountInPaise` | app/api/checkout/phonepe/route.ts:30 | a finite amount becomes a whole number of paise within half a paisa of amount × 100; a non-numeric amount is sent as null |
| `CheckoutPay.PayChecksumLayout` | app/api/checkout/phonepe/route.ts:37-54 | X-VERIFY = sha256hex(payloadStr + "/pg/v1/pay" + SALT_KEY) + "###" + SALT_INDEX, and the body's `request` is that same base64 `payloadStr` |
| `CheckoutPay.ResponseCheck` | app/api/checkout/phonepe/route.ts:56-61 | 200 with `instrumentResponse = data.data` if and only if the HTTP status is OK and `success === true`; otherwise 400 "PhonePe error" |
| `PhonePe.XVerify` | app/api/checkout/phonepe/callback/route.ts:35-41 | the header layout; that the header determines its digest and salt index is `XVerifySplits`, and its use in the two signed requests is `CheckoutCallback.StatusChecksumLayout` and `CheckoutPay.PayChecksumLayout` |
| `PhonePe.XVerifySplits` | app/api/checkout/phonepe/callback/route.ts:35-41 | for digests of one length, two headers are equal if and only if their digests and their salt indexes are |
| `PaymentsCreate.CreatePayment` | app/api/payments/phonepe/create/route.ts:3-58 | the unsigned pay route; stated by `EnvMissingRejected`, `UnsignedRequest`, `CreatePayloadFields`, `UnroundedAmount` and `AnswerHandling` |
| `PaymentsCreate.CheckoutUrl` | app/api/payments/phonepe/create/route.ts:47-48 | the checkout-URL chain; stated by `CheckoutUrlChain` |
| `PaymentsCreate.EnvMissingRejected` | app/api/payments/phonepe/create/route.ts:8-15 | 500 "PhonePe env vars missing", with no request, if and only if the merchant id, salt key or salt index is unset |
| `PaymentsCreate.UnsignedRequest` | app/api/payments/phonepe/create/route.ts:11-43 | the request goes to the configured base, defaulting to the production host, and carries no X-VERIFY header |
| `PaymentsCreate.CreatePayloadFields` | app/api/payments/phonepe/create/route.ts:19-29 | the payload holds amount × 100, `merchantTransactionId = orderId`, `merchantUserId = userEmail or "user"` |
| `PaymentsCreate.UnroundedAmount` | app/api/payments/phonepe/create/route.ts:21 | the amount is not rounded: 1.005 is sent as 100.5 |
| `PaymentsCreate.CheckoutUrlChain` | app/api/payments/phonepe/create/route.ts:47-48 | `checkoutUrl` is the first truthy of the three response places in order, else null |
| `PaymentsCreate.AnswerHandling` | app/api/payments/phonepe/create/route.ts:45-54 | `{checkoutUrl}` when one is found, 500 "No redirect URL from PhonePe" exactly when none is; the HTTP status plays no part |
| `ResultPage.ResultPageFor` | app/purchase/result/page.tsx:1-33 | the page for a status and `mtid`; stated by `MissingStatusIsError`, `KnownStatuses`, `OtherStatusNeutral` and `TransactionLine` |
| `ResultPage.MissingStatusIsError` | app/purchase/result/page.tsx:6 | a missing or empty status shows the "Payment Error" page in red |
| `ResultPage.KnownStatuses` | app/purchase/result/page.tsx:13-27 | success is "Payment Successful" in green; failed is "Payment Failed" in red and contains "No amount was captured"; error is "Payment Error" in red |
| `ResultPage.OtherStatusNeutral` | app/purchase/result/page.tsx:9-12 | a non-empty status keeps the neutral "Payment Status" page and verifying text if and only if it is none of the three known words |
| `ResultPage.TransactionLine` | app/purchase/result/page.tsx:7-32 | the transaction line shows `mtid`, or "—" when it is missing or empty, whatever the status |
| `PurchaseForm.SubmitOutcome` | components/purchase-form.tsx:25-54 | `submit` as a function; stated by `LoggedOutRedirects`, `DisagreeSendsNothing`, `PositionsFieldRoundTrip` and `ResponseHandling`; `FormState.Submit` runs it on the form state |
| `PurchaseForm.Respond` | components/purchase-form.tsx:39-50 | the handling of the answer, with the `catch`; stated by `ResponseHandling` |
| `PurchaseForm.SubmitDisabled` | components/purchase-form.tsx:124 | the button's `disabled` test; stated by `EnabledMeansOffered` |
| `PurchaseForm.TotalValue` | components/purchase-form.tsx:23 | the total is positions × price, and 0 when the price is NaN |
| `PurchaseForm.PositionOptions` | components/purchase-form.tsx:66 | the `<option>` values; which counts are offered (exactly 1..available, none when available ≤ 0) is stated by `OptionsExact`, and that an enabled button's count is one of them by `EnabledMeansOffered` |
| `PurchaseForm.OptionsExact` | components/purchase-form.tsx:66 | n is offered if and only if 1 ≤ n ≤ available; there are none when available ≤ 0 |
| `PurchaseForm.EnabledMeansOffered` | components/purchase-form.tsx:124 | an enabled button means signed in, agreed, not loading, and an offered count |
| `PurchaseForm.LoggedOutRedirects` | components/purchase-form.tsx:27-30 | signed out: navigate to `/auth/sign-in?next=/books/{slug}` with no request |
| `PurchaseForm.DisagreeSendsNothing` | components/purchase-form.tsx:31 | without agreement nothing is sent and nothing happens |
| `PurchaseForm.PositionsFieldRoundTrip` | components/purchase-form.tsx:36 | the posted `String(positions)` is read back exactly by `Number` and by `parseInt` |
| `PurchaseForm.ResponseHandling` | components/purchase-form.tsx:42-48 | an OK response with a `null` body ends in the runtime's TypeError alert; OK with `checkoutUrl` navigates there; otherwise 401 goes to sign-in; otherwise the server's error or the generic text is alerted, a `null` body on a failed response included |
| `PurchaseForm.FormState.Submit` | components/purchase-form.tsx:25-54 | the request and action are those of `SubmitOutcome`; inputs are untouched; `loading` is false after every outcome that sent a request |
| `PurchasePage.LoadBook` | src/pages/Purchase.tsx:65-75 | the book query; stated by `OnlyActiveLoaded`, `InactiveNeverLoaded` and `UniqueActiveLoaded` |
| `PurchasePage.PayDisabled` | src/pages/Purchase.tsx:368-370 | the Pay button's `disabled` test; stated by `PayEnabledWithClamp` |
| `PurchasePage.PurchaseFlow` | src/pages/Purchase.tsx:114-176 | `handlePurchase` as a function; stated by `NoOpWithoutBookOrUser`, `FailedInsertSkipsUpdate`, `FailedUpdateLeavesPending`, `TwoStepWrite` and `NeverDecrements` |
| `PurchasePage.Clamp` | src/pages/Purchase.tsx:289-292 | the clamped count is always ≥ 1, and ≤ available when available ≥ 1 |
| `PurchasePage.ClampKeepsInRange` | src/pages/Purchase.tsx:289-292 | a whole number typed within 1..available is kept as typed |
| `PurchasePage.ClampFallsBackToOne` | src/pages/Purchase.tsx:291 | input that does not parse, or parses to 0, becomes 1 |
| `PurchasePage.ClampCapsAtAvailable` | src/pages/Purchase.tsx:291 | a count above the available count stops at it |
| `PurchasePage.PayEnabledWithClamp` | src/pages/Purchase.tsx:368-370 | with a clamped count, Pay is enabled if and only if there is a phone, no purchase is running, and available ≥ 1 |
| `PurchasePage.OnlyActiveLoaded` | src/pages/Purchase.tsx:65-72 | only a book with the requested id and status `active` is ever loaded |
| `PurchasePage.InactiveNeverLoaded` | src/pages/Purchase.tsx:71 | a book in any other status never loads |
| `PurchasePage.UniqueActiveLoaded` | src/pages/Purchase.tsx:65-75 | with unique ids, an active book with the requested id always loads |
| `PurchasePage.NoOpWithoutBookOrUser` | src/pages/Purchase.tsx:115 | without a book or user, `handlePurchase` writes nothing and shows nothing |
| `PurchasePage.FailedInsertSkipsUpdate` | src/pages/Purchase.tsx:129-144 | a failed insert leaves the store unchanged and shows the failure toast |
| `PurchasePage.FailedUpdateLeavesPending` | src/pages/Purchase.tsx:150-158 | a failed second write leaves the new row pending with no payment id |
| `PurchasePage.TwoStepWrite` | src/pages/Purchase.tsx:126-156 | both writes together append exactly one row: already `completed`, with the `PAY_{now}_{random}` id, at price × positions; earlier rows are untouched |
| `PurchasePage.NeverDecrements` | src/pages/Purchase.tsx:114-176 | `handlePurchase` never changes a book |
| `PurchasePage.PurchasePageState.HandlePurchase` | src/pages/Purchase.tsx:114-176 | the two writes on the shared store give exactly `PurchaseFlow`'s store and toast; `purchasing` is false after every outcome past the early return |
| `PurchasePage.PurchasePageState.EditPositions` | src/pages/Purchase.tsx:287-293 | the positions field takes the clamped value; nothing else changes |
| `Dashboard.UserPurchases` | src/pages/Dashboard.tsx:43-56 | the rows shown are the caller's purchases, each as often as the table holds it, and no other row |
| `Dashboard.Summarize` | src/pages/Dashboard.tsx:125-148 | the three summary figures; stated by `TotalsBase`, `TotalsAppend`, `InvestedIsPriceTimesPositions`, `PositionsBound` and `NewRowCounted` |
| `Dashboard.CardFor` | src/pages/Dashboard.tsx:176-244 | one purchase card; stated by `CardShowsRow` and `IconAndBadgeAgree` |
| `Dashboard.TotalsBase` | src/pages/Dashboard.tsx:125-148 | an empty list sums to 0 purchases, 0 positions, 0 invested; one row sums to its own values |
| `Dashboard.TotalsAppend` | src/pages/Dashboard.tsx:136-148 | the reductions are additive over concatenation: each row is counted once |
| `Dashboard.InvestedIsPriceTimesPositions` | src/pages/Dashboard.tsx:136-148 | with every row priced at one price, total invested = price × total positions |
| `Dashboard.PositionsBound` | src/pages/Dashboard.tsx:136 | with non-negative counts, the positions total is at least each row's count and non-negative |
| `Dashboard.NewRowCounted` | src/pages/Dashboard.tsx:125-148 | a user's new purchase adds one purchase, its positions and its amount to that user's totals |
| `Dashboard.Classify` | src/pages/Dashboard.tsx:72-96 | the `switch` behind the icon and the badge; that only `completed`, `pending` and `failed` are recognised (so `success` is not) is `ClassifierExact`, and that icon and badge agree is `IconAndBadgeAgree` |
| `Dashboard.ClassifierExact` | src/pages/Dashboard.tsx:72-96 | every other word, including `success`, gets the grey default icon and badge |
| `Dashboard.IconAndBadgeAgree` | src/pages/Dashboard.tsx:72-96 | the icon colour and the badge colour always agree |
| `Dashboard.EmptyStateIffNoRows` | src/pages/Dashboard.tsx:158-173 | "No Purchases Yet" is shown if and only if the list is empty |
| `Dashboard.CardShowsRow` | src/pages/Dashboard.tsx:240-244 | each card shows its row's status, and the payment-id line if and only if `payment_id` is truthy |
| `Dashboard.QueryErrorLooksEmpty` | src/pages/Dashboard.tsx:58-66 | a failed query shows an empty dashboard with zero totals and an error toast |
| `Tables.BookBySlug` | app/api/orders/create/route.ts:42-46 | one row is found only if it carries the slug; no row if and only if no book carries it |
| `Tables.PurchaseByPaymentId` | app/api/checkout/phonepe/callback/route.ts:61-65 | one row is found only if it carries `payment_id = mtid`; no row if and only if none does |
| `Tables.ApplyDecrement` | app/api/checkout/phonepe/callback/route.ts:82-85 | the procedure changes no column but `available_positions`, leaves every book with another id as it was, and gives each matched book `dec(available, n)`; partners `DecrementOfUnknownBook` and `Flows.OversellWindow` |
| `Tables.UpdatePurchases` | app/api/checkout/phonepe/callback/route.ts:74-79 | rows whose id is not v are untouched; a matched row changes only in `payment_status` and, when the patch carries one, `payment_id`; partners `UpdatePurchasesIdempotent` and `CheckoutCallback.StatusWriteKeepsPaymentMatches` |
| `Tables.UpdatePurchasesIdempotent` | app/api/checkout/phonepe/callback/route.ts:74-79 | writing the same patch twice leaves the table as writing it once |
| `Tables.DecrementOfUnknownBook` | app/api/checkout/phonepe/callback/route.ts:82-85 | a decrement aimed at a book id no row carries changes no book |
| `Flows.ReplayedCheckoutDecrementsTwice` | app/api/checkout/phonepe/callback/route.ts:61-86 | the same successful callback run twice decrements the book twice |
| `Flows.ReplayedWebhookDecrementsTwice` | app/api/payments/phonepe/callback/route.ts:22-36 | the same successful webhook body run twice decrements the book twice |
| `Flows.TwoIntakesBothAccepted` | app/api/orders/create/route.ts:55-72 | two orders, each within the stock alone, are both accepted one after the other, and the counter is unchanged |
| `Flows.OversellWindow` | app/api/orders/create/route.ts:55-72 | two orders of n1 and n2 against a available are both accepted; both settle as successes; with a subtracting procedure the counter ends at a − n1 − n2 |
| `Flows.PublishedNeverLoads` | app/api/admin/books/route.ts:83 | a book created by the admin route (`published`) never loads on the purchase page, which wants `active` |
| `Flows.SettledStatusOnDashboard` | src/pages/Dashboard.tsx:72-96 | the callback's `success` lands in the dashboard's grey default; its `failed` is recognised |
| `Flows.SettlementTestsDisagree` | app/api/payments/phonepe/callback/route.ts:16 | the two settlement handlers disagree on one body: `data.responseCode: "SUCCESS"` alone is a success for the checkout callback (its route.ts:57-59) and a failure for the webhook; `success: "false"` is the reverse |
| `Flows.CallbackRedirectNeverNeutral` | app/api/checkout/phonepe/callback/route.ts:69-93 | every redirect carries `success`, `failed` or `error`, so the result page is never neutral |
| `Flows.WebhookMissesIntakeRow` | app/api/payments/phonepe/callback/route.ts:15-25 | a body naming the merchant transaction id that intake stored in `payment_id` matches no `id`: the new row stays pending and nothing changes (intake's rows are settled by the checkout callback; the webhook is reached with the purchase's `id` as `orderId`) |
| `Flows.PaymentIdLineAfterWrites` | src/pages/Dashboard.tsx:240 | an intake row shows its transaction id on the dashboard; a purchase-page row whose second write failed shows none |
| `JsValues.FirstTruthyIsFirst` | app/api/payments/phonepe/create/route.ts:47-48 | an or-chain (`a or b or c`) yields the first truthy candidate |
| `JsValues.NumberOfIntText` | components/purchase-form.tsx:36 | `Number(String(n)) == n` for every integer |
| `JsValues.ParseIntOfIntText` | src/pages/Purchase.tsx:291 | `parseInt(String(n)) == n` for every integer |

## Left out

- Supabase client construction, cookie and header adapters, and row-level
  security are not modelled. Authorisation is the `user` or the failure
  flags passed to each handler. `lib/supabase/service.ts` is not part of
  this model.
- The body of `decrement_available_positions` is not part of the
  repository. It is the parameter `dec` (an arbitrary function of available
  and n). No clamping and no atomicity is assumed.
- SHA-256, base64, `JSON.stringify` and number formatting are
  uninterpreted function parameters. Only the string layout around them is
  modelled.
- `fetch` to PhonePe is modelled as its answer, an input. Redirects are
  modelled as returned status and `mtid` values.
- Floating point is not modelled. Numbers are exact reals, so `Math.round`
  and `* 100` have no binary rounding. JSON numbers are always finite.
- `Number(...)` of a string reads exponents and `0x`/`0o`/`0b` literals as
  NaN. `Number([x])` of a one-element array is NaN.
- Concurrency is not modelled. Every run is sequential, so the overselling
  window appears as two intakes followed by two settlements.
- Text columns hold the JSON value that was sent. The database's coercion
  of non-text values to text is not modelled.
- An admin `PATCH` whose fields are all of the wrong type sends an empty
  update. PostgREST then runs no `UPDATE` and returns no row, so the model
  answers `{book: null}` without a write. The model does not capture
  whether the database would still report a malformed `id` in that case;
  the error flag is tested first.
- `available_positions` is not null in the schema, so intake's `?? 0` is
  never exercised and is not modelled.
- A PATCH `id` that is not a UUID makes the database err. That case is
  folded into the `updateFails` flag.
- The messages of runtime exceptions are not modelled. A `catch` reply is
  status 500 with the message or the handler's fallback text.
- `Dashboard.UserPurchases`: the rows are kept in table order. The query's
  `created_at` descending order is not modelled, because the totals and
  the per-card facts do not depend on it.
- The image upload in `handlePurchase` is its resulting URL (or null), a
  parameter. Toast texts, navigation after the purchase, and the
  `loading` flag of the page's fetch are left out.
- `AdminBooks.ListBooks`: the listing returns whole book rows rather than
  the selected columns. The order among books with equal `created_at` is
  the database's choice; the model keeps table order among them.
- The plagiarism and payment-processor functions, the auth context, the
  sign-in and profile pages, the upload route, and presentational pages
  are not part of this model.
