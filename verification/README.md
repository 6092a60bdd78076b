# Affiliate commission backend — a Dafny model

This project models the core of a Laravel backend for an affiliate
marketing platform. Merchants register and own a shop domain. Affiliates
belong to a merchant and carry a commission rate and a discount code.
Orders arrive from the shop's webhook, are attributed to an affiliate, and
record the commission owed. Queued payout jobs pay each order's commission
through a payment gateway and mark the order PAID. A statistics endpoint
reports count, revenue and commission owed over a date range.

The database is an immutable `Store` with four auto-increment tables:
users, merchants, affiliates and orders (`Tables.Table`, `Records.Store`).

- Each service call is a pure function from a store to a `Step`. A `Step`
  holds the store as committed and either the return value or the error
  raised.
- The store keeps any partial commit. `MerchantService.register` and
  `updateMerchant` run without a transaction: a user they create or update
  stays even when a later step throws.
- None of the queries has an `orderBy`, so SQL leaves open which row
  `where(...)->first()` returns and the order `get()` lists rows in. The
  model fixes both: `first()` returns the matching row with the smallest
  id (`Tables.First`), and rows are listed in id order.
- The unique indexes are the users' email, the merchants' domain and the
  affiliates' discount code. An insert or update that would break one fails
  with a `QueryException` (`Records.Error.Query`).
- Outside inputs are parameters:
  - the payout gateway's outcome (a `bool`);
  - the discount code returned by the discount-code API;
  - the order's creation time (`now`).

The model follows the code as written, including behaviour a reader might
not expect:

- `AffiliateService::register` stores the merchant's own `user_id` on the
  new affiliate. It then finds or creates a user for the email. A new user
  gets type MERCHANT and a random password. The affiliate does not point
  at that user.
- `findOrCreateAffiliate` returns the merchant's first affiliate, whatever
  the email. It never raises `AffiliateCreateException`, so the `catch` in
  `processOrder` never fires. Its failures are unique-index violations,
  and those propagate out of `processOrder`. `OrderService.ProcessOrder`
  proves this.
- An unknown merchant domain makes `getMerchantByDomain` return null from a
  function declared to return a `Merchant`, which raises a `TypeError`
  (`MerchantNotFound`). No order is written.
- The payout job never checks the order's status. Running it on a PAID
  order pays the commission again.
- `orderStats` applies no merchant filter and no payout-status filter. Its
  `commissions_owed` is the rounded total commission minus the rounded
  commission of unattributed orders.

Take one order of 100 with an affiliate and commission 10, and one of 50
without an affiliate and commission 5. The code reports commissions owed
of 15 − 5 = 10 (`MerchantController.TwoOrderExample`).

Modules: `Wrappers`, `Money` (two-decimal rounding), `Tables`, `Records`
(entities, lookups, writes, the well-formedness invariant `Valid`),
`OrderService`, `AffiliateService`, `MerchantService`, `PayoutOrderJob`,
`MerchantController`, and `Workflow`. `Workflow` treats every operation as
a transition and states the properties that hold across all of them.

## Model

| member | source | states |
|---|---|---|
| Tables.First | app/Services/OrderService.php:26 | `first()` returns a matching row with no matching row at a smaller id, and returns nothing exactly when no row matches |
| Records.OrderByExternalId | app/Services/OrderService.php:26 | the order found has the external id, and none is found exactly when no order has it |
| Records.MerchantByDomain | app/Services/OrderService.php:74 | the merchant found has the domain, and none is found exactly when no merchant has it |
| Records.CreateOrder | app/Services/OrderService.php:45 | the order is added under a fresh id and no other row changes |
| Records.AffiliateOfMerchant | app/Services/AffiliateService.php:118 | the affiliate found belongs to the merchant, and none is found exactly when the merchant has no affiliate |
| Records.MerchantOfUser | app/Services/MerchantService.php:37 | the merchant found belongs to the user, and none is found exactly when the user owns no merchant |
| Records.AffiliateOfUser | app/Services/AffiliateService.php:38 | the affiliate found belongs to the user, and none is found exactly when the user has no affiliate |
| Records.EmailUserHasMerchant | app/Services/AffiliateService.php:33 | when the first guard of `register` fires, some user with the email owns a merchant |
| Records.EmailUserHasAffiliate | app/Services/AffiliateService.php:38 | when the second guard of `register` fires, some user with the email owns an affiliate |
| Records.UserByEmail | app/Services/MerchantService.php:90 | the user found has the email, and none is found exactly when no user has it |
| Records.CreateUser | app/Services/AffiliateService.php:124-128 | user creation fails with a unique-email violation exactly when the email is taken; otherwise exactly one row is added, under a fresh id |
| Records.FirstOrCreateUser | app/Services/MerchantService.php:27-34 | an existing user with the email is returned untouched; otherwise a new user with the given attributes is added under a fresh id |
| Records.CreateMerchant | app/Services/MerchantService.php:42-46 | merchant creation fails exactly when the domain is taken; otherwise exactly one row is added |
| Records.CreateAffiliate | app/Services/AffiliateService.php:131-136 | affiliate creation fails exactly when the discount code is taken; otherwise exactly one row is added |
| Records.SaveUser | app/Services/MerchantService.php:67-70 | a user update fails exactly when another user holds the new email; otherwise only that row changes |
| Records.SaveMerchant | app/Services/MerchantService.php:74-77 | a merchant update fails exactly when another merchant holds the new domain; otherwise only that row changes |
| Money.Round2 | app/Http/Controllers/MerchantController.php:44-46 | `round(x, 2)` gives whole cents, within half a cent of x, with x's sign |
| Money.Round2Exact | app/Http/Controllers/MerchantController.php:44-46 | rounding an amount already in whole cents leaves it unchanged |
| OrderService.GetMerchantByDomain | app/Services/OrderService.php:72-82 | returns a merchant with the domain, and fails with the null-return error exactly when none has it |
| OrderService.GetMerchantIdByDomain | app/Services/OrderService.php:90-95 | gives the id of a merchant with the domain when there is one, else 0 |
| OrderService.OfferedRate | app/Services/OrderService.php:39 | the rate offered to a new affiliate, 10% of the subtotal rounded to cents, is in whole cents, within half a cent of 10% of the subtotal, and non-negative for a non-negative subtotal |
| OrderService.ProcessOrder | app/Services/OrderService.php:22-57 | a known external id returns AlreadyRecorded at once and writes nothing, and no other input gives that outcome; an unknown domain raises and writes nothing; a failed affiliate resolution raises its error and writes nothing; a new id for a known domain is recorded exactly when affiliate resolution succeeds; an affiliate error is never caught; a recorded order carries the payload's fields, the merchant of the domain, an affiliate of that merchant, and commission = subtotal × that affiliate's rate; when the merchant already had an affiliate only the order is written, and otherwise exactly one AFFILIATE user for the customer and one affiliate for the merchant, at the offered rate with the payload's discount code, are added besides |
| OrderService.ProcessOrderRecords | app/Services/OrderService.php:33-53 | a new external id for a known domain is always recorded when the merchant already has an affiliate, and otherwise exactly when the customer's email and the discount code are both free |
| OrderService.RecordOrder | app/Services/OrderService.php:45-53 | the order is inserted under a fresh id with the payload's external id, subtotal and discount code, the domain's merchant, the given affiliate, commission = subtotal × that affiliate's rate, status UNPAID and the current time; nothing else changes |
| OrderService.CommissionAtExistingRate | app/Services/OrderService.php:36-50 | when the merchant already has an affiliate, the order goes to its first affiliate at that affiliate's stored rate, and no affiliate is created |
| OrderService.CommissionAtOfferedRate | app/Services/OrderService.php:36-50 | a new external id for a known domain whose merchant has no affiliate, with the email and discount code free, is recorded; a new affiliate is created at the offered rate and the commission is computed at that rate |
| OrderService.ExternalIdsAfterProcessOrder | app/Services/OrderService.php:22-57 | processing an order adds exactly one order with its external id when one is recorded, and changes no other external id's orders |
| OrderService.ProcessOrderIdempotent | app/Services/OrderService.php:26-31 | delivering the same webhook again after it succeeded changes nothing, and exactly one order with that external id exists |
| OrderService.ProcessOrderKeepsValid | app/Services/OrderService.php:22-57 | processing an order keeps the store well-formed: unique columns, distinct external ids, and references that resolve |
| AffiliateService.Register | app/Services/AffiliateService.php:29-64 | raises the email-owns-a-merchant error exactly when the email's user has a merchant; otherwise the email-owns-an-affiliate error exactly when that user has an affiliate; a discount-code clash otherwise; no other error is raised, so with no guard firing and the code free it succeeds; on success the affiliate carries the merchant's user id and the given rate and code, and a missing user is created with type MERCHANT; a failure writes nothing |
| AffiliateService.RegisterMerchantGuard | app/Services/AffiliateService.php:33-35 | with unique emails, the first guard fires exactly when some user with the email owns a merchant |
| AffiliateService.RegisterAffiliateGuard | app/Services/AffiliateService.php:38-40 | with unique emails, the second guard fires exactly when some user with the email owns an affiliate |
| AffiliateService.RegisterKeepsValid | app/Services/AffiliateService.php:29-64 | registering an affiliate keeps the store well-formed |
| AffiliateService.FindOrCreateAffiliate | app/Services/AffiliateService.php:111-141 | returns the merchant's first affiliate untouched when it has one; otherwise creates an AFFILIATE user and an affiliate with the requested rate and code in one transaction; when it has none, it succeeds exactly when the email and the discount code are both free, and otherwise fails with the unique-index error and writes nothing |
| AffiliateService.FindOrCreateAtMostOneAffiliate | app/Services/AffiliateService.php:118-138 | a merchant with affiliates keeps exactly those; one without ends up with at most one |
| AffiliateService.FindOrCreateRepeat | app/Services/AffiliateService.php:118-140 | once it has succeeded, any later call for the merchant returns the same affiliate and changes nothing |
| AffiliateService.FindOrCreateKeepsValid | app/Services/AffiliateService.php:111-141 | finding or creating an affiliate keeps the store well-formed |
| MerchantService.Register | app/Services/MerchantService.php:22-55 | the email's user exists afterwards, even when registration fails; it fails with 'already exists' exactly when that user owns a merchant, and with the wrapped query error exactly when the domain is taken; on success exactly one merchant is added, with the user's id, the domain and the name |
| MerchantService.RegisterTwiceFails | app/Services/MerchantService.php:36-40 | a second registration with the same email fails and changes nothing |
| MerchantService.RegisterThenFind | app/Services/MerchantService.php:86-101 | after a successful registration, looking the merchant up by email finds it, unless the email belonged to an affiliate user |
| MerchantService.RegisteredAffiliateUserNotFound | app/Services/MerchantService.php:92-96 | if the email belongs to an AFFILIATE user, the lookup by email finds nothing, even after a registration |
| MerchantService.RegisterRefusesMerchantOwners | app/Services/MerchantService.php:36-40 | when every merchant's user exists, 'already exists' is raised exactly when the email's user owns a merchant |
| MerchantService.UpdateMerchant | app/Services/MerchantService.php:64-78 | an email clash fails before anything is written; otherwise the user's name and email are saved even if the merchant update then fails; a user with no merchant raises the null-call error; the merchant update fails exactly when another merchant holds the new domain; on success only the merchant's domain and display name change |
| MerchantService.UpdateThenFindByEmail | app/Services/MerchantService.php:64-101 | after a successful update a MERCHANT user's merchant is found by the new email |
| MerchantService.UpdateThenFindByDomain | app/Services/MerchantService.php:64-78 | after a successful update the merchant is the first found under the new domain |
| MerchantService.RegisterKeepsValid | app/Services/MerchantService.php:22-55 | registering a merchant keeps the store well-formed |
| MerchantService.UpdateMerchantKeepsValid | app/Services/MerchantService.php:64-78 | updating a merchant keeps the store well-formed |
| MerchantService.FindMerchantByEmail | app/Services/MerchantService.php:86-101 | finds a merchant exactly when the email's first user is of type MERCHANT and owns one, and the merchant found belongs to that user |
| MerchantService.Payout | app/Services/MerchantService.php:109-120 | dispatches a job for exactly the affiliate's UNPAID orders, each once; the model lists them in id order |
| PayoutOrderJob.Handle | app/Jobs/PayoutOrderJob.php:36-59 | calls the gateway once, with the affiliate user's email and the commission owed, or not at all when that user cannot be reached; succeeds exactly when the call was made and returned; success marks that order PAID and changes nothing else; failure rolls back completely |
| PayoutOrderJob.PayeeEmail | app/Jobs/PayoutOrderJob.php:44 | the payee's email is found exactly when the order has an affiliate that exists and whose user exists, and it is that user's email |
| PayoutOrderJob.HandleMonotone | app/Jobs/PayoutOrderJob.php:41-58 | the job never turns PAID into UNPAID, never changes another order's status, and never adds or removes orders |
| PayoutOrderJob.HandlePaysPaidOrderAgain | app/Jobs/PayoutOrderJob.php:41-49 | with no status guard, a job for an order already PAID pays the full commission again |
| PayoutOrderJob.RetryAfterFailure | app/Jobs/PayoutOrderJob.php:50-58 | a failed attempt leaves nothing behind: the retry makes the same call and ends as if it had run first |
| PayoutOrderJob.HandleKeepsValid | app/Jobs/PayoutOrderJob.php:36-59 | the job keeps the store well-formed |
| MerchantController.OrderStats | app/Http/Controllers/MerchantController.php:26-53 | count is the number of orders created in [from, to]; revenue is their subtotal sum rounded to cents; commissions owed is within a cent of the in-range commission of attributed orders |
| MerchantController.CountIsInRangeIds | app/Http/Controllers/MerchantController.php:32 | the count equals the size of the set of in-range order ids |
| MerchantController.CommissionSplit | app/Http/Controllers/MerchantController.php:36-41 | before rounding, total commission minus unattributed commission is the attributed commission |
| MerchantController.StatsDependOnRangeOnly | app/Http/Controllers/MerchantController.php:26-53 | the statistics depend only on the in-range orders' subtotal, commission and attribution |
| MerchantController.TwoOrderExample | app/Http/Controllers/MerchantController.php:26-53 | orders of 100 (attributed, commission 10) and 50 (unattributed, commission 5) give count 2, revenue 150 and commissions owed 10 |
| Workflow.ApplyKeepsValid | app/Services/OrderService.php:22-57 | every operation keeps the store well-formed |
| Workflow.ApplyKeepsOrders | app/Jobs/PayoutOrderJob.php:47 | no operation deletes an order or changes any field but its payout status, and none turns PAID into UNPAID |
| Workflow.PaidStaysPaid | app/Jobs/PayoutOrderJob.php:47 | a PAID order stays PAID whatever operation runs |
| Workflow.RunJobsPays | app/Jobs/PayoutOrderJob.php:36-59 | in a run of jobs for orders whose payee can be reached, every order whose gateway call succeeds ends PAID |
| Workflow.RunJobsKeepsPaid | app/Jobs/PayoutOrderJob.php:47 | a run of jobs leaves every PAID order PAID |
| Workflow.PaidOrDispatched | app/Services/MerchantService.php:112-119 | every order of the affiliate is PAID already or among those payout dispatched |
| Workflow.RunJobsKeepsValid | app/Jobs/PayoutOrderJob.php:36-59 | any run of payout jobs, for any orders, keeps the store well-formed |
| Workflow.PayoutAndSettle | app/Services/MerchantService.php:109-120 | payout followed by successful runs of each dispatched job leaves every order of the affiliate PAID |
| Workflow.PayoutJobKeepsStats | app/Http/Controllers/MerchantController.php:32-41 | a payout job leaves every range's statistics unchanged, since no status filter applies |
| Workflow.OrderOutsideRangeKeepsStats | app/Http/Controllers/MerchantController.php:32-41 | an order recorded at a time outside the range leaves that range's statistics unchanged |

## Left out

- `WebhookController` and the HTTP layer are not modelled. Validation and
  JSON encoding are left out, and so are requests missing webhook fields:
  the payload is a record with every field present.
- `ApiService` calls are outside inputs: the discount code for
  `register` and the outcome of `sendPayout`.
- Mail, logging, `echo`/debug output and queue mechanics are left out.
  `PayoutOrderJob::dispatch` becomes the list of order ids returned by
  `Payout`.
- Password hashing and `rand()` are left out. A password is only recorded
  as none, random or the API key.
- The `users.password` column is assumed nullable or defaulted. The
  `User::create` in `findOrCreateAffiliate` (app/Services/AffiliateService.php:124-128)
  sets no password; a schema that forbids that would make every new-affiliate
  order fail, and the model does not.
- Timestamps other than an order's `created_at` are left out. `from`/`to`
  are timestamps on `created_at`'s own scale, compared inclusively, as
  `whereBetween` does. A date-only `to` compared against a datetime column
  stops at midnight at the start of that day; this is not modelled.
- Money.Round2: amounts are exact reals, not IEEE doubles. Floating-point
  error in sums and products is not modelled.
- MerchantController.OrderStats: `commissions_owed` is the real difference
  of the two rounded sums. Its formatting by `number_format(..., 14)` into
  a string is not modelled.
- Concurrent requests and duplicate deliveries racing each other are left
  out. Every operation is atomic with respect to the others.
- Every lookup and unique index compares strings exactly, as a binary
  collation does. This covers emails, domains, discount codes and external
  order ids. Under a case-insensitive collation, such as MySQL's
  `utf8mb4_unicode_ci`, order deduplication and email uniqueness would
  behave differently. Collation is not modelled.
- The database schema is not part of this model. The unique indexes on
  users' email, merchants' domain and affiliates' discount code are an
  assumption.
- A new order's payout status is UNPAID. `Order::create` does not set
  it, so this assumes a column default of UNPAID.
- Which affiliate `findOrCreateAffiliate` returns for a merchant with
  several affiliates depends on the row order `first()` sees. The model
  takes the smallest id.
- Order creation writes an `order_id` column that is assumed to exist; the
  order's `orderId` field models it.
- `AffiliateService::findOrCreateAffiliate` also accepts a bare email
  string; only the array form that `processOrder` passes is modelled.
- Dead code is not modelled: `AffiliateService::createAffiliate`,
  `OrderService::findOrCreateAffiliate` and the commission logging helper
  of `OrderService`. None of them is reachable from the modelled
  operations.
- Eloquent's model events, mass-assignment guarding and the `$casts` of the
  models are left out. Attribute types are fixed by the datatypes.
