# Werun: a verified model of its reservation, payment and limiting core

A Dafny model of the parts of Werun where seats, money and logins can go wrong, with proofs over every input, every
interleaving and every run. `dafny verify dfyconfig.toml` checks all of it.

- **Seats.** An order reserves seats in category rows, price-tier rows and a coupon row. `Ledger` states the
  conservation law between those counters and the orders, `Counters` updates the rows one by one, `Locks` shows that
  the lock order excludes deadlocks.
- **Prices.** `Quoting` selects tiers, checks coupons, picks the identifying cents and puts a quote together;
  `Allocation` splits a discount over the participants.
- **Orders, proofs, receipts.** `Orders` says what each transaction does, `OrderService` runs it as a sequence of
  conditional row updates with roll-back and is proved equal to it, `OrderBooks` proves what every run keeps,
  `OrderRuns` reads the promises off the reachable states, `OrderOutcomes` says for each transaction exactly when it
  succeeds, `OrderLife` walks one order through a run.
- **Around the orders.** `Deadline` is the batch job that expires orders, between other transactions. `Idempotency` is
  the key table in front of ordering, `OrderDesk` puts both together: every run of it is a run of each.
- **Limiters.** `SlidingWindow`, `LoginLimiter` and `Lockout` cover the staff login limiter, `Logins` the service with
  any number of logins side by side, `OtpLimiter` the runners' one-time codes. Both limiters are proved to answer as ones
  that never forget anything would.
- **The shared business domain.** `RunLedger` is its second reservation ledger with the restore of expired orders,
  `Merch`, `MerchRuns`, `MerchOutcomes` and `LateMoney` are its merchandise stock, refunds and late money, `EditDistance` its spelling
  comparison.
- **Dollars.** `Usd` prints and parses amounts.
- **Shared.** `Common` has sums over sequences, `Sorting` the one stable sort.

Each transaction is one atomic step for the safety claims; `Locks` is the finer model, of lock acquisitions only. A
failing transaction changes nothing. Objects with updated fields are classes; every method that changes state is
proved equal to a function of the old state, and the lemmas are about those functions.

Where the code does not do what its comments say, the model follows the code:

- `api/internal/runner/limiter.go:34` says that a refused send returns the earliest time to retry. It returns the
  time of the first limit that refuses; another limit may still be closed then. `OtpLimiter.WaitCanBeTooShort` is a
  run in which that happens, `OtpLimiter.AllowWaitIsRightIff` is the exact condition: no limit that is checked later
  opens after the first closed one does, rounded up to a second.
- `api/internal/registration/deadline.go:219-220` says that idempotency keys are kept for a day and unexpired ones left
  alone. A call reads its clock before it waits for its locks (`api/internal/registration/create.go:144`): a deletion
  with a later reading can come in between and take a key that still lives by the call's clock, and the call then places
  a second order. `Idempotency.LateCallPlacesAgain` is such a run, `Idempotency.PurgesShowNowhereIff` and
  `Idempotency.RepeatsAreAnsweredIff` are the exact conditions. Calls among themselves may read the clock and commit in
  any order.
- `requirements/run/assets/run-domain.js:1167` checks stock line by line, against the hard no-oversell rule that
  line 1115 states. An order that repeats a SKU oversells (`MerchRuns.RepeatedSkuOversells`); the stock invariant
  survives an order exactly when its merged demand fits (`MerchRuns.CreateKeepsStockIff`), and a run exactly when that
  holds of every accepted order (`MerchRuns.ShelfThroughoutIff`). Orders, refunds and late money stay consistent in any case.
- `requirements/run/assets/run-domain.js:1272-1290` promises that money arriving after the deadline is paid back. A
  second late payment of the same order is not: `LateMoney.PaidBackIff` is the exact condition,
  `LateMoney.SecondPaymentBlocksFirst` the case, `LateMoney.StuckIsReached` a run into it.
- The spelling comparison of `requirements/run/assets/run-domain.js:2316-2327` accepts small corrections of the same
  name. The relation is symmetric; two corrections in a row always make one exactly for names of fewer than three
  letters (`EditDistance.CorrectionsChainIff`), so a chain of corrections can drift.

## Model

| member | source | states |
|---|---|---|
| `Ledger.ReserveKeeps` | api/db/queries/pricing.sql:119-136 | seats that pass the conditional updates keep reserved and used equal to what the orders hold, within every limit |
| `Ledger.ReservedIsCovered` | api/internal/pricing/counters.go:139-185 | a reserved claim is covered on every row, so "fewer than n reserved" cannot happen |
| `Ledger.ChangeKeeps` | api/internal/pricing/counters.go:119-187 | consuming, releasing or restoring one order's whole claim keeps the books; the first two can never fail |
| `Ledger.DirectUseKeeps` | api/db/queries/registration.sql:322-325 | a seat taken by a free sign-up keeps the books |
| `Counters.GroupSeats` | api/internal/pricing/counters.go:25-36 | the merged rows are exactly the participants' rows as a multiset, each once, by ascending id |
| `Counters.PricingStore.UpdateRows` | api/internal/pricing/counters.go:42-60 | succeeds exactly when every row passes its guard, and then has updated every row |
| `Counters.PricingStore.UpdateKind` | api/internal/pricing/counters.go:42-60 | the rows of one kind, merged and updated, are the participants' demand applied as a whole |
| `Counters.PricingStore.Reserve` | api/internal/pricing/counters.go:40-70 | succeeds exactly when the whole demand fits; otherwise names the first kind of counter that is full |
| `OrderBooks.NewOrderOk` | api/internal/pricing/counters.go:73-86 | a new order has a reserved use of exactly its coupon, or none without a coupon, and its money identities hold |
| `Counters.PricingStore.Move` | api/internal/pricing/counters.go:119-187 | consume and release move exactly the order's seats and its open coupon use |
| `Counters.ThreeKinds` | api/internal/pricing/counters.go:22-24 | categories, then tiers, then the coupon comes to the same as the order's seats at once |
| `Allocation.Allocate` | api/internal/pricing/quote.go:159-198 | the paid amounts sum to the total less the discount, lie between zero and the price, are within a cent of proportion, and the left-over cents go to the largest remainders, ties to the earlier |
| `Allocation.RoundDown` | api/internal/pricing/quote.go:176-184 | every participant's floor share and remainder, and the cents left over |
| `Allocation.TakeCents` | api/internal/pricing/quote.go:185-198 | the left-over cents go to distinct participants in the order of the remainders, and the index stays in range |
| `Allocation.AllocationIsUnique` | api/internal/pricing/quote.go:159-198 | those conditions leave one allocation only |
| `Quoting.SelectTier` | api/internal/pricing/quote.go:83-112 | returns the cheapest eligible tier, ties by sort order and id, or none when none is eligible |
| `Quoting.SelectionIsCheapest` | api/internal/pricing/quote.go:83-122 | a tier is selected exactly when one is on offer to this runner now with a seat left, and none on offer is cheaper |
| `Quoting.SelectionIsOrderFree` | api/internal/pricing/quote.go:83-122 | the selected tier does not depend on the order of the candidates |
| `Quoting.CouponDiscount` | api/internal/pricing/quote.go:144-157 | a waiver takes all of it, an amount what it says up to the list amount, a percentage what it says rounded down by less than a cent; never below zero |
| `Quoting.CheckCoupon` | api/internal/pricing/quote.go:315-336 | passes exactly the active coupon of the event that is in its window, has a use left and enough runners |
| `Quoting.PickIdentOffset` | api/internal/pricing/quote.go:201-209 | the least offset whose payable amount is free, and zero exactly when every candidate is taken |
| `Quoting.OffsetFoundIfRoom` | api/internal/pricing/quote.go:201-209 | with fewer open amounts than candidates an offset is always found |
| `Quoting.PickTiers` | api/internal/pricing/quote.go:249-279 | prices the participants in order, counting the seats the order has taken; an error means somebody cannot be priced |
| `Quoting.MakeQuote` | api/internal/pricing/quote.go:213-312 | returns the quote the rules define, or an error with its reason |
| `Quoting.PicksAreUnique` | api/internal/pricing/quote.go:249-279 | two ways of pricing the same people pick the same tiers |
| `Quoting.UnquotableMeansNoQuote` | api/internal/pricing/quote.go:249-293 | when an error is returned, no valid quote exists |
| `Quoting.WithinQuota` | api/internal/pricing/quote.go:248-270 | counting as it goes, an order never takes more of a tier than its quota leaves |
| `Quoting.QuoteFitsReserve` | api/internal/pricing/counters.go:38-70 | on unchanged counters a quote's tiers and coupon can be reserved |
| `Quoting.QuoteMoney` | api/internal/pricing/quote.go:284-311 | amount is list less coupon less offset and the sum of the paid shares, and zero exactly when the coupon covers everything |
| `Quoting.WaiverIsFree` | api/internal/pricing/quote.go:144-157 | with a waiver the order costs nothing and nobody pays |
| `Quoting.EveryoneFits` | api/internal/pricing/quote.go:249-279 | everybody is old enough and gets, at its price, the cheapest tier on offer to him |
| `Quoting.OffsetIsLeast` | api/internal/pricing/quote.go:201-209 | the identifying cents of a quote are the least within the limits that lead to a free amount, at most fifty |
| `Quoting.StuckBecause` | api/internal/pricing/quote.go:249-279 | an error means no such category, too young for it, or no tier on offer any more |
| `OrderService.OrderService.ConfirmPaid` | api/internal/registration/create.go:472-496 | the order row moves on its condition, then seats and registrations; otherwise a state conflict |
| `OrderService.OrderService.MoveSeats` | api/internal/registration/orders.go:144-156 | the order's seats move, and the registrations that are still pending |
| `OrderService.OrderService.ReleaseOrder` | api/internal/registration/orders.go:124-157 | releases exactly when the conditional update hits, and otherwise changes nothing |
| `OrderService.OrderService.CancelOrder` | api/internal/registration/orders.go:88-122 | cancels the buyer's unpaid order in one transaction, with its errors |
| `OrderOutcomes.CancelIff` | api/internal/registration/orders.go:88-122 | an order is cancelled exactly by its buyer while it waits for its first payment; then nothing of it stands |
| `OrderRuns.SubmittedProofsAreReviewable` | api/internal/payment/review.go:321-342 | in every reachable state exactly the submitted proofs can be reviewed: their orders are there and wait for it |
| `OrderService.OrderService.MarkProofSubmitted` | api/internal/registration/locks.go:41-51 | conditional move into review, clearing the deadline |
| `OrderService.OrderService.MarkProofRejected` | api/internal/registration/locks.go:53-63 | conditional move out of review, with a new deadline |
| `OrderService.OrderService.SubmitProof` | api/internal/payment/proofs.go:83-149 | the proof and the order's move into review, or the first error in the order of the checks, with nothing changed; never past the deadline, for another buyer or with a bad input |
| `OrderOutcomes.SubmitIff` | api/internal/payment/proofs.go:86-115 | a proof is taken exactly from the buyer, before the deadline, with four to sixty-four characters of a reference not in use and a positive amount; each other case has its error |
| `OrderOutcomes.SubmittedAs` | api/internal/payment/proofs.go:117-149 | then proof and order are under review and no deadline runs |
| `OrderService.OrderService.ApproveProof` | api/internal/payment/review.go:148-248 | proof, receipt, overpayment, order and counters change together or not at all |
| `OrderOutcomes.BookedAs` | api/internal/payment/review.go:168-228 | an accepted proof books what came in, and what came in above the amount due as an exception of its own |
| `OrderOutcomes.ApprovedAs` | api/internal/payment/review.go:230-233 | and pays its order, with every registration confirmed |
| `OrderOutcomes.ConfirmIff` | api/internal/registration/create.go:472-496 | confirming is refused exactly unless the order is under review, or new and free |
| `OrderOutcomes.LastResorts` | api/internal/payment/proofs.go:117-149 | on any rows, reachable or not, nothing is accepted that has a proof pending, a receipt booked or no reservation |
| `OrderService.OrderService.RejectProof` | api/internal/payment/review.go:251-307 | proof and order change together or not at all |
| `OrderOutcomes.RejectedAs` | api/internal/payment/review.go:259-282 | exactly submitted proofs are refused, and their order is open again until the new deadline |
| `OrderService.OrderService.CreateOrder` | api/internal/registration/create.go:231-384 | checks, quote against the account's open amounts, reservation, rows and direct confirmation as one transaction |
| `OrderOutcomes.CreateIff` | api/internal/registration/create.go:231-264 | an order is placed exactly for one to ten new runners, at an open published race, with an account, while every row it needs is active and has room |
| `OrderOutcomes.FullBecause` | api/internal/pricing/counters.go:38-70 | when there is no room, the error names the first kind that is full: categories, then tiers, then the coupon |
| `OrderOutcomes.OpenAmountsAre` | api/internal/pricing/quote.go:338-357 | the amounts to keep apart from are those of the account's orders still to be paid |
| `OrderOutcomes.PlacedAs` | api/internal/registration/create.go:266-383 | it has the quote's amounts and waits until the upload window closes, or is paid at once when it is free |
| `OrderOutcomes.SeatsHeldAre` | api/internal/pricing/counters.go:22-36 | an order holds one seat per runner in his category, one in his tier, and one use of its coupon |
| `OrderService.OrderService.PlaceOrder` | api/internal/registration/create.go:266-383 | the writes of a priced order |
| `OrderRuns.RepricedIffUntouched` | api/internal/pricing/rules.go:181-188 | a tier can be repriced exactly while no order that stands has a seat in it and the new quota is not negative |
| `OrderRuns.QuotaEditsIff` | api/internal/pricing/coupons.go:191-193 | a quota can be lowered exactly to what the orders have, counted from the orders |
| `OrderRuns.SignupsIff` | api/db/queries/registration.sql:322-325 | a free sign-up gets a seat exactly when orders and earlier sign-ups leave one |
| `OrderBooks.MoveKeepsBooks` | api/internal/pricing/counters.go:88-97 | a reserved order's seats can always be moved, and the books stay balanced |
| `OrderBooks.ReleaseKeeps` | api/internal/registration/orders.go:124-157 | releasing an order never fails and keeps every invariant |
| `OrderBooks.SubmitKeeps` | api/internal/payment/proofs.go:117-149 | a submitted proof keeps every invariant |
| `OrderBooks.RejectKeeps` | api/internal/payment/review.go:259-279 | a rejected proof keeps every invariant |
| `OrderBooks.ApproveKeeps` | api/internal/payment/review.go:155-243 | an approval succeeds exactly when the input, the states and the money allow it, and keeps every invariant |
| `OrderBooks.RefIsFree` | api/db/migrations/0005_payments.sql:62-81 | a reference under review has no receipt yet, so the receipt's unique index never refuses |
| `OrderBooks.PendingProofIffUnderReview` | api/db/migrations/0005_payments.sql:58-59 | a pending proof exists exactly while the order is under review |
| `OrderBooks.NewAmountApart` | api/internal/pricing/quote.go:338-357 | a chosen offset keeps the new amount apart from all open amounts of the account |
| `OrderBooks.NewcomersOnly` | api/internal/registration/create.go:423-452 | an accepted order registers nobody who already has a place |
| `OrderBooks.CreateKeeps` | api/internal/registration/create.go:231-384 | placing an order keeps every invariant, and confirms it at once exactly when nothing is payable |
| `OrderBooks.TableStepKeeps` | api/internal/pricing/rules.go:181-188 | edits of quotas and coupons, new rows and free sign-ups keep every invariant |
| `OrderBooks.StepKeeps` | api/internal/registration/create.go:130-190 | every transaction keeps every invariant |
| `OrderBooks.RunKeeps` | api/internal/registration/create.go:130-190 | the invariants hold in every reachable state |
| `OrderRuns.OneArrow` | api/db/migrations/0003_registration.sql:23-28 | a transaction moves at most the order it is about, along one arrow of the state diagram, and never its terms |
| `OrderRuns.SettledForGood` | api/internal/registration/orders.go:124-157 | paid, expired and cancelled orders never change again, so seats are consumed or released once |
| `OrderRuns.ReviewShields` | api/internal/registration/locks.go:41-63 | an order under review has no deadline and only its review moves it |
| `OrderRuns.SeatsAreConserved` | api/internal/pricing/counters.go:22-24 | in every reachable state each counter is what the orders hold plus free sign-ups, within its limit |
| `OrderRuns.LastResortsUnreached` | api/internal/pricing/counters.go:139-185 | short counters, a second pending proof and a booked reference at approval never come up |
| `OrderRuns.AmountIdentifiesOrder` | api/internal/pricing/quote.go:294-300 | open orders of an account with identifying cents have pairwise distinct amounts |
| `OrderRuns.RegisteredOnce` | api/internal/registration/create.go:422-452 | a person has one standing registration per event |
| `OrderRuns.OneStory` | api/internal/payment/review.go:155-243 | status, reservation, coupon use, proofs, receipts and exceptions agree; a paid order's receipt is its amount plus its overpayment |
| `OrderRuns.BookedOnce` | api/db/migrations/0005_payments.sql:81 | no two receipts share account and reference |
| `OrderRuns.MoneyIsConserved` | api/internal/payment/review.go:176-231 | all receipts together are the paid orders' amounts plus the open overpayments |
| `OrderRuns.QuoteOnlyMissesCategories` | api/internal/pricing/counters.go:38-70 | on unchanged counters only a category can refuse a quoted order |
| `OrderLife.PaidOrdersAreReached` | api/internal/payment/review.go:148-248 | a run from the empty database to a paid order with identifying cents, one receipt and one overpayment |
| `Deadline.BatchIsDue` | api/db/queries/registration.sql:268-276 | a batch holds at most a hundred due unheld orders, each once, and all of them when it is short |
| `Deadline.EarliestFirst` | api/db/queries/registration.sql:268-276 | no order is picked before one whose deadline came earlier |
| `OrderOutcomes.ExpireIff` | api/internal/registration/deadline.go:124-137 | due are exactly the orders whose deadline has come, and once expired nothing of them stands |
| `Deadline.ReleaseTwice` | api/internal/registration/orders.go:124-125 | a second release changes nothing |
| `Deadline.ExpireDueBatch` | api/internal/registration/deadline.go:86-122 | a batch is the fold of single releases, all or nothing, and counts what it released |
| `Deadline.BatchExpires` | api/internal/registration/deadline.go:88-122 | in a reachable state a batch cannot fail and expires exactly its orders |
| `Deadline.BatchIsRun` | api/internal/registration/deadline.go:88-122 | a batch is a run of the order machine |
| `Deadline.ProcessDeadlines` | api/internal/registration/deadline.go:60-84 | ends whatever other transactions commit between the batches, once none of them read its clock long before the job; from a reachable state it cannot fail, job and all of that are one run, and nothing is left due but what was held during the last batch |
| `Locks.StepKeeps` | api/internal/registration/create.go:133-134 | locks exclude each other and every transaction stays in lock order |
| `Locks.WaitersReachUp` | api/internal/pricing/counters.go:22-24 | whoever waits wants a lock above all it holds; what it holds it never waits for |
| `Locks.NoWaitCycle` | api/internal/registration/deadline.go:86-105 | no interleaving closes a circle of waiting transactions |
| `Locks.SomebodyCanGo` | api/internal/registration/deadline.go:86-105 | as long as a transaction is going, some transaction can go on |
| `Locks.CreateIsOrderly` | api/internal/registration/create.go:133-180 | placing an order takes its locks in rank order, and again only held rows, the key for the stored answer last |
| `Locks.ReviewIsOrderly` | api/internal/payment/review.go:155-243 | a review locks proof and order, writes both again, and goes up to the counters last |
| `Locks.OrderPlanIsOrderly` | api/internal/registration/orders.go:88-122 | cancelling and submitting keep to the lock order |
| `Locks.BatchIsOrderly` | api/internal/pricing/counters.go:99-117 | a batch locks exactly the counters that occur in its orders by rank; releasing the orders then touches only held rows |
| `Locks.ShortPlansAreOrderly` | api/internal/pricing/rules.go:159-167 | free sign-ups and staff edits keep to the lock order |
| `Locks.PlansAskForAll` | api/internal/registration/create.go:133-134 | no plan leaves out a lock its transaction relies on |
| `Idempotency.ReplayIsLossless` | api/internal/registration/handlers.go:137-231 | a stored answer shown again is the same answer |
| `Idempotency.LocalizedRoundTrip` | api/internal/registration/handlers.go:287-310 | localized text survives the round trip |
| `Idempotency.AnswerShows` | api/internal/registration/handlers.go:137-184 | the answer shows the order field by field, each text in its own language |
| `Idempotency.KeyTable.Claim` | api/db/queries/registration.sql:1-12 | takes exactly new and expired keys |
| `OrderDesk.OrderDesk.CreateOrder` | api/internal/registration/create.go:130-190 | claim, order and stored answer are one step on key table and rows; a repeat is answered from the table; any error leaves both as they were |
| `OrderDesk.StepMatches` | api/internal/registration/create.go:164-186 | every order row keeps the key owner as buyer and the bill of its stored answer, through every transaction |
| `OrderDesk.OneRowPerKey` | api/internal/registration/create.go:130-131 | two order rows placed under one key are at least a key lifetime apart, in whatever order calls read the clock and commit, unless a deletion was ahead of the later calls |
| `OrderDesk.RepeatShowsTheOrderIff` | api/internal/registration/create.go:193-223 | within the lifetime a call is a repeat exactly when the key has not been deleted; then it writes no row and is shown the bill that the order row has to this day, or refused; otherwise a deletion was ahead of it and it places another order |
| `OrderDesk.KeysHaveOrders` | api/internal/registration/create.go:152-190 | after every run every taken key has its order row, of its own owner, and a stored answer with that bill |
| `OrderDesk.RunIsKeyRun` | api/internal/registration/create.go:142-190 | a run of ordering under keys is a run of the key table |
| `OrderDesk.RunIsOrderRun` | api/internal/registration/create.go:142-190 | and a run of the order machine, so all its invariants hold behind the keys |
| `Idempotency.PurgesShowNowhereIff` | api/internal/registration/deadline.go:219-229 | the calls of a run alone have the same outcomes exactly when no call met its key deleted within its life; none does when no deletion read a later clock than the calls after it |
| `Idempotency.OneOrderPerKey` | api/internal/registration/create.go:130-131 | two orders under one key are at least a key lifetime apart, in whatever order calls read the clock and commit, unless a deletion was ahead of the later calls |
| `Idempotency.RepeatsAreAnsweredIff` | api/internal/registration/create.go:193-223 | within the life of the key the same request gets the first answer, any other an error, and nothing changes, exactly when the key has not been deleted |
| `Idempotency.LateCallPlacesAgain` | api/internal/registration/create.go:144-150 | a run in which a call that read its clock before a deletion places a second order within the life of the key |
| `Idempotency.ResponseIsStored` | api/internal/registration/create.go:214-216 | after every run a living key has a stored response |
| `SlidingWindow.PruneBefore` | api/internal/iam/limiter.go:182-188 | drops the hits up to the cutoff |
| `SlidingWindow.Sweep` | api/internal/iam/limiter.go:158-163 | prunes every list of a map and drops the empty ones |
| `SlidingWindow.PrunedLengthIsCount` | api/internal/iam/limiter.go:171-188 | the length of a pruned list is the count over the full history |
| `LoginLimiter.LoginLimiter.AllowIP` | api/internal/iam/limiter.go:47-59 | sweep, prune, refuse at the limit, record otherwise |
| `Lockout.LockedAnswersFromHistory` | api/internal/iam/limiter.go:61-74 | says whether a lock runs in the limiter that forgets nothing |
| `LoginLimiter.LoginLimiter.BeginAttempt` | api/internal/iam/limiter.go:76-101 | claims a slot unless a lock runs or failures and attempts reach the limit |
| `LoginLimiter.LoginLimiter.Failure` | api/internal/iam/limiter.go:103-117 | gives the slot back, records the failure, locks at the limit |
| `Lockout.SucceedsView` | api/internal/iam/limiter.go:119-126 | a success leaves its user with one slot less, no failure and no lock, and every other user as he was |
| `Lockout.SlotsAreAttempts` | api/internal/iam/limiter.go:128-147 | the slots held are the attempts that began and have not ended: every ending gives back exactly one |
| `LoginLimiter.LoginLimiter.MaybeSweep` | api/internal/iam/limiter.go:149-169 | every 64th call cleans all maps |
| `LoginLimiter.SweepClears` | api/internal/iam/limiter.go:149-169 | every 64th call leaves no stale list and no lock that has run out, the others touch nothing |
| `LoginLimiter.Login` | api/internal/iam/service.go:124-229 | a begun attempt ends exactly once on every exit path; logged in is exactly an active account with its password, and unknown names, wrong passwords and disabled accounts are what counts as a failure |
| `Logins.WorkIsLegal` | api/internal/iam/service.go:124-229 | however logins interleave, their calls keep to the limiter's protocol, and the slots are the logins whose password is being checked |
| `Logins.ServiceLockout` | api/internal/iam/service.go:130-142 | the lockout promise of the service over every interleaving: five failures per window, five failures and checks together, no check under a lock |
| `Logins.AloneIsLogin` | api/internal/iam/service.go:124-229 | a login that runs alone is the method |
| `LoginLimiter.CheckCredentials` | api/internal/iam/service.go:143-229 | the answer in terms of account and password, and the slot given back by an outcome exactly when `released` is set |
| `Lockout.StepView` | api/internal/iam/limiter.go:81-147 | what each call can do to one user's entries |
| `Lockout.StepKeeps` | api/internal/iam/limiter.go:76-147 | stored failures, lock and slots stay consistent with the full history |
| `Lockout.LockoutBound` | api/internal/iam/limiter.go:76-101 | at most five failures per user and window without a success, failures plus attempts at most five, nobody in flight under a lock |
| `Lockout.FifthFailureLocks` | api/internal/iam/limiter.go:103-117 | a failure locks exactly when it is the fifth unanswered one in the window |
| `Lockout.LockEndsOnlyByTime` | api/internal/iam/limiter.go:119-126 | no call ends a running lock |
| `Lockout.StepIsRemembered` | api/internal/iam/limiter.go:47-147 | call by call the limiter decides as one that never prunes, with its own logs and its own lock rule |
| `Lockout.BeginAnswersFromHistory` | api/internal/iam/limiter.go:81-101 | after any run attempts are admitted as by the limiter that forgets nothing, which is computed from the run alone |
| `Lockout.IpAnswersFromHistory` | api/internal/iam/limiter.go:47-59 | so are addresses |
| `OtpLimiter.OtpLimiter.Allow` | api/internal/runner/limiter.go:34-60 | address limit, cooldown and phone limit in order, recording both keys or neither |
| `OtpLimiter.OtpLimiter.AllowVerify` | api/internal/runner/limiter.go:62-78 | refuses at thirty checks in ten minutes |
| `OtpLimiter.OtpLimiter.MaybeSweep` | api/internal/runner/limiter.go:80-106 | every 64th call cleans all maps |
| `OtpLimiter.SweepClears` | api/internal/runner/limiter.go:80-106 | every 64th call leaves no stale list, the others touch nothing |
| `OtpLimiter.CeilIsNext` | api/internal/runner/limiter.go:116-121 | rounds a positive wait up to the next full second |
| `OtpLimiter.AllowAnswersFromHistory` | api/internal/runner/limiter.go:35-60 | the whole answer is that of the full logs: granted when every limit is open, otherwise the time until the first closed one opens |
| `OtpLimiter.VerifyAnswersFromHistory` | api/internal/runner/limiter.go:65-78 | checks are admitted exactly when the full log leaves room |
| `OtpLimiter.BothOrNeither` | api/internal/runner/limiter.go:57-59 | a granted code is recorded for phone and address, a refused one for neither, and never for anyone else |
| `OtpLimiter.VerifyWaitIsRight` | api/internal/runner/limiter.go:62-78 | a retry after the returned wait succeeds, one a second earlier fails |
| `OtpLimiter.AllowWaitIsRightIff` | api/internal/runner/limiter.go:34-60 | the wait is given from the full logs; a retry a second earlier fails; one at that time succeeds exactly when no limit checked later opens after it |
| `OtpLimiter.WaitCanBeTooShort` | api/internal/runner/limiter.go:34-60 | a run after which the returned wait is not enough |
| `EditDistance.Compute` | requirements/run/assets/run-domain.js:2304-2315 | the rolling rows compute the recursive edit distance |
| `EditDistance.DistanceIsEdits` | requirements/run/assets/run-domain.js:2304-2315 | the distance is the least number of letters to put in, take out or replace that leads from one name to the other |
| `EditDistance.Symmetric` | requirements/run/assets/run-domain.js:2304-2315 | the distance is symmetric |
| `EditDistance.ZeroIffEqual` | requirements/run/assets/run-domain.js:2304-2315 | zero exactly for equal names |
| `EditDistance.Triangle` | requirements/run/assets/run-domain.js:2304-2315 | the triangle inequality |
| `EditDistance.IsSpellingCorrection` | requirements/run/assets/run-domain.js:2318-2327 | accepts exactly reorderings and at most two typos of names of three letters or more |
| `EditDistance.WordsAreParts` | requirements/run/assets/run-domain.js:2322-2324 | the words of a name have no space in them and make up the name |
| `EditDistance.CorrectionIsSymmetric` | requirements/run/assets/run-domain.js:2316-2327 | the relation is symmetric |
| `EditDistance.CorrectionsDriftSlowly` | requirements/run/assets/run-domain.js:2316-2327 | two corrections in a row stay within four edits |
| `EditDistance.CorrectionsChainIff` | requirements/run/assets/run-domain.js:2301-2327 | among normalised names, two corrections of a name always make one exactly when it has fewer than three letters |
| `RunLedger.RunDomain.MergeDemand` | requirements/run/assets/run-domain.js:876-883 | the demand of the whole order, merged per row |
| `RunLedger.RunDomain.PlanReservation` | requirements/run/assets/run-domain.js:876-902 | passes exactly when the merged demand fits every row |
| `RunLedger.RunDomain.MoveCounters` | requirements/run/assets/run-domain.js:914-975 | adds or subtracts the demand row by row, with the clamps at zero |
| `RunLedger.RunDomain.CreateOrder` | requirements/run/assets/run-domain.js:1715-1829 | idempotent per number, refused when closed, empty or full, all or nothing |
| `RunLedger.RunDomain.ExpireOrder` | requirements/run/assets/run-domain.js:1892-1914 | releases once, repeats change nothing |
| `RunLedger.RunDomain.ConfirmPayment` | requirements/run/assets/run-domain.js:1840-1888 | authority first, then the deadline, then the consumption of the reservation |
| `RunLedger.RunDomain.CancelOrder` | requirements/run/assets/run-domain.js:1923-1977 | the deadline speaks first, then the release |
| `RunLedger.RunDomain.ValidateRestore` | requirements/run/assets/run-domain.js:2145-2181 | the cumulative check passes exactly when the merged demand fits |
| `RunLedger.RunDomain.OccupyRows` | requirements/run/assets/run-domain.js:826-857 | row-by-row writes succeed exactly when everything fits, and are taken back otherwise |
| `RunLedger.RunDomain.TakeBack` | requirements/run/assets/run-domain.js:2182-2187 | the roll-back restores the counters exactly |
| `RunLedger.RunDomain.Restore` | requirements/run/assets/run-domain.js:2188-2214 | once validated no write fails; the order comes back whole or not at all |
| `RunLedger.EndedKeeps` | requirements/run/assets/run-domain.js:928-975 | no clamp bites when a reservation ends, and the books stay balanced |
| `RunLedger.RestoreKeeps` | requirements/run/assets/run-domain.js:2145-2214 | an expired order is restored exactly when all of it fits, within capacity and quota |
| `RunLedger.RunKeeps` | requirements/run/assets/run-domain.js:859-874 | the invariants hold in every reachable state |
| `RunLedger.SeatsAreConserved` | requirements/run/assets/run-domain.js:859-874 | counters equal what the orders hold and nothing is oversold, restores included |
| `RunLedger.OneArrow` | requirements/run/assets/run-domain.js:1830-1977 | paid only with authority before the deadline, expired by the timeout or by whoever comes after the deadline, cancelled before it, back from expired only by a restore |
| `RunLedger.CreateIff` | requirements/run/assets/run-domain.js:1715-1829 | an order is placed exactly while registration is open, for somebody, and all its seats fit together; a number is used once |
| `RunLedger.ConfirmIff` | requirements/run/assets/run-domain.js:1840-1888 | a waiting order is paid exactly with authority and before its deadline; from then on it expires |
| `RunLedger.CancelIff` | requirements/run/assets/run-domain.js:1923-1977 | a waiting order is cancelled exactly before its deadline; from then on it expires |
| `RunLedger.ExpireIff` | requirements/run/assets/run-domain.js:1892-1914 | exactly a waiting order expires |
| `RunLedger.RestoreIff` | requirements/run/assets/run-domain.js:2145-2214 | an expired order comes back exactly when all its seats fit, and is paid then with everybody |
| `MerchRuns.AdjustKeeps` | requirements/run/assets/run-domain.js:1107-1130 | an adjustment keeps every SKU at what came in less what was sold, and never takes reserved goods; an increase is never refused |
| `Merch.MerchShop.CheckItems` | requirements/run/assets/run-domain.js:1158-1180 | checks each item on its own and freezes its price |
| `Merch.MerchShop.CreateOrder` | requirements/run/assets/run-domain.js:1154-1211 | reserves every line of an accepted order |
| `MerchOutcomes.CreateIff` | requirements/run/assets/run-domain.js:1154-1180 | an order is accepted exactly when it has items and each is on sale with enough pieces unreserved |
| `MerchOutcomes.PlacedAs` | requirements/run/assets/run-domain.js:1181-1211 | it costs its pieces at the prices of the moment, reserves them all and waits until the deadline |
| `Merch.MerchShop.ReleaseReservation` | requirements/run/assets/run-domain.js:1133-1152 | gives a reservation back once |
| `Merch.MerchShop.ExpireOrder` | requirements/run/assets/run-domain.js:1255-1270 | expires a pending order and releases it |
| `MerchOutcomes.ExpireIff` | requirements/run/assets/run-domain.js:1255-1270 | exactly a waiting order expires |
| `Merch.MerchShop.CancelOrder` | requirements/run/assets/run-domain.js:1213-1253 | the deadline first, then open exceptions, then the release; nothing is cancelled after its deadline |
| `MerchOutcomes.CancelIff` | requirements/run/assets/run-domain.js:1213-1253 | a waiting order is cancelled exactly before its deadline and with no exception open; from the deadline on it expires |
| `Merch.MerchShop.LateArrival` | requirements/run/assets/run-domain.js:1290-1311 | the order stays expired and the money is booked as an exception |
| `Merch.MerchShop.PayOrder` | requirements/run/assets/run-domain.js:1313-1358 | in time the goods leave reservation and shelf together, late it is late money; paid only before the deadline |
| `MerchOutcomes.PayIff` | requirements/run/assets/run-domain.js:1313-1335 | a payment completes a waiting order exactly before its deadline, and is late exactly for an expired order or from the deadline on |
| `MerchOutcomes.PaidAs` | requirements/run/assets/run-domain.js:1290-1358 | in time the order is paid and ready to be handed over; late it is expired and an open exception records its amount |
| `MerchOutcomes.HandoffIff` | requirements/run/assets/run-domain.js:1360-1375 | exactly paid goods not yet handed over and not paid back are handed over |
| `MerchOutcomes.RefundIff` | requirements/run/assets/run-domain.js:1394-1437 | a refund is opened exactly for a paid order or late money, when none stands |
| `MerchOutcomes.RefundedAs` | requirements/run/assets/run-domain.js:1400-1437 | it names the newest late money and its amount, or has the order's amount |
| `MerchOutcomes.ReviewIff` | requirements/run/assets/run-domain.js:1440-1483 | exactly requested refunds are approved; refunds of late money are never refused |
| `MerchOutcomes.SettleIff` | requirements/run/assets/run-domain.js:1515-1563 | exactly an approved refund is settled, with its own amount and a proof |
| `MerchOutcomes.SettledAs` | requirements/run/assets/run-domain.js:1564-1596 | and closes the late money it names, and nothing else |
| `MerchOutcomes.ReturnIff` | requirements/run/assets/run-domain.js:1605-1634 | exactly goods of a settled refund that were paid come back, once, every piece |
| `MerchOutcomes.AdjustIff` | requirements/run/assets/run-domain.js:1107-1130 | stock is adjusted exactly as long as what is reserved stays on hand |
| `MerchOutcomes.ResolveIff` | requirements/run/assets/run-domain.js:1669-1686 | by hand exactly an open exception other than late money is closed |
| `LateMoney.RefundedIsNeverFulfilled` | requirements/run/assets/run-domain.js:1360-1375 | goods whose refund is settled are not handed over in any run |
| `MerchRuns.RefundKeeps` | requirements/run/assets/run-domain.js:1394-1437 | a new refund keeps one standing refund per order and names the late money it is for |
| `LateMoney.StandingStays` | requirements/run/assets/run-domain.js:1457-1483 | no operation, a rejection included, makes the refund of an expired order go away |
| `Merch.MerchShop.SettleRefund` | requirements/run/assets/run-domain.js:1515-1596 | only the exact obligation, closing the late arrival it names |
| `Merch.MerchShop.ReceiveReturn` | requirements/run/assets/run-domain.js:1605-1634 | puts the whole order back once |
| `LateMoney.ExcsMove` | requirements/run/assets/run-domain.js:1669-1686 | late money is closed only by the settlement of a refund that names it, never by hand |
| `MerchRuns.FreeKeeps` | requirements/run/assets/run-domain.js:1135-1152 | no clamp bites on a release, and the stock stays balanced |
| `MerchRuns.SellKeeps` | requirements/run/assets/run-domain.js:1336-1346 | no clamp bites on a payment, and the stock stays balanced |
| `MerchRuns.ReturnKeeps` | requirements/run/assets/run-domain.js:1622-1628 | all returned goods come back to the shelf |
| `MerchRuns.CreateKeepsStockIff` | requirements/run/assets/run-domain.js:1158-1171 | an accepted order keeps the stock invariant exactly when its merged demand fits |
| `MerchRuns.DistinctItemsFit` | requirements/run/assets/run-domain.js:1158-1171 | orders with distinct SKUs always fit |
| `MerchRuns.RepeatedSkuOversells` | requirements/run/assets/run-domain.js:1158-1171 | an order that repeats a SKU and reserves more than there is |
| `MerchRuns.SettleKeeps` | requirements/run/assets/run-domain.js:1515-1596 | a settlement keeps refunds and late money consistent |
| `MerchRuns.StepKeepsBooks` | requirements/run/assets/run-domain.js:1154-1694 | every operation, on whatever stock, keeps orders, refunds and exceptions consistent |
| `MerchRuns.StepKeepsShelfIff` | requirements/run/assets/run-domain.js:1103-1211 | an operation keeps the stock in order exactly when it is not an accepted order whose merged demand does not fit |
| `MerchRuns.RunKeepsBooks` | requirements/run/assets/run-domain.js:1154-1694 | orders, refunds and exceptions are consistent after every run |
| `MerchRuns.ShelfThroughoutIff` | requirements/run/assets/run-domain.js:1103-1211 | the stock is in order throughout a run exactly when every accepted order fitted |
| `LateMoney.StockIsConserved` | requirements/run/assets/run-domain.js:1103-1152 | without oversell at any moment of a run exactly when every accepted order fitted; then reserved and on-hand stock add up |
| `LateMoney.OneMove` | requirements/run/assets/run-domain.js:1255-1375 | expired and cancelled are final, reservations are released once, nothing is handed over after a settled refund |
| `LateMoney.SettledInFull` | requirements/run/assets/run-domain.js:1525-1563 | a settled refund paid exactly its obligation |
| `LateMoney.ClosedMeansPaidBack` | requirements/run/assets/run-domain.js:1564-1586 | late money is closed exactly when a settled refund names it |
| `LateMoney.LateMoneyIsConserved` | requirements/run/assets/run-domain.js:1272-1311 | after every run all late cents are those still open plus those that settled refunds paid back |
| `LateMoney.StuckForGood` | requirements/run/assets/run-domain.js:1394-1418 | late money that is not closable stays open in every run |
| `LateMoney.PaidBackIff` | requirements/run/assets/run-domain.js:1380-1418 | late money can still be closed exactly when a refund naming it is under way, or none stands and it is the newest |
| `LateMoney.SecondPaymentBlocksFirst` | requirements/run/assets/run-domain.js:1313-1325 | an expired order paid twice leaves the first payment stuck |
| `LateMoney.StuckIsReached` | requirements/run/assets/run-domain.js:1255-1325 | a run of four operations from an opening shop to such a payment |
| `Usd.FormatRoundTrip` | packages/api-client/src/money.ts:1-21 | a printed amount reads back exactly up to thirteen digits of dollars, and not beyond |
| `Usd.NegativeFormat` | packages/api-client/src/money.ts:3-10 | below zero the same text comes with a minus |
| `Usd.ParseAcceptsIff` | packages/api-client/src/money.ts:1-21 | parsing accepts exactly the grammar after trimming |
| `Usd.TrimTakesSpaces` | packages/api-client/src/money.ts:14 | trimming takes the white space off both ends, all of it and nothing else |
| `Usd.ParseSplit` | packages/api-client/src/money.ts:12-21 | accepted text is so many dollars and so many cents, a single digit behind the dot counting tens |
| `Usd.CanonicalForm` | packages/api-client/src/money.ts:1-21 | every accepted text prints to a form with the same value |

## Left out

- HTTP handlers, OpenAPI types, front ends, audit rows, notifications, reminders and translations: plumbing around the modelled steps.
- PostgreSQL itself: statements are guarded updates, transactions all or nothing. A quote may be older than the rows it is committed to (`OrderBooks.QuotedFor` leaves the catalog free, and lets orders leave the open amounts in between), but a transaction's other reads of orders and proofs are taken at one moment.
- Unique numbers (order, proof, registration, exception numbers) and their retries: rows are identified by position, fresh by construction.
- Text normalisation of names, codes and references (trimming, upper-casing), the review texts and reject codes, image and file storage.
- Dates: ages on race day and leap years become an age parameter; time is an integer. The limiters read it under their mutex and it does not run back there; everywhere else readings come in any order.
- Integer width: amounts and counters are unbounded. The `int64` products of the allocation and the wrap-around of the limiters' 64-bit call counters are not modelled.
- The request hash of an idempotency key, id-number hashes and password checks: abstract values; JSON encoding of a stored answer is taken to be faithful.
- Collisions of the 64-bit advisory-lock keys of two different id hashes, waits on unique indexes and the deletion of expired keys: not in the lock model.
- The editing of names, sale windows and sort orders of price rules, and the category links: they touch no counter.
- Payment accounts, their selection for an event and QR codes: the account is a parameter of an order.
- In the shared domain: participant refunds, which give back confirmed capacity from outside the modelled file, the matching of price rules, amounts of registration orders, bib numbers, race packs, stories and seed data.
- The demonstration's own amount splitting (`allocateAmounts`): it can make a share negative; the allocation modelled is the server's.
- EditDistance.IsSpellingCorrection: takes names that are already normalised, and compares the sorted joined words as a multiset of words.
- LoginLimiter.Login: the session, staff and audit writes are outcomes given as parameters.
- Deadline.ProcessDeadlines: the orders that other transactions hold are given per batch; what they commit falls between batches, because a batch is one step. The loop ends once no transaction is left that read its clock an upload window before the job; until then it may find new due orders.
- OrderDesk.OrderDesk.CreateOrder: the answer is read back by a function given as a parameter, of which only the bill is required; the lookup of the event before the claim is left out.
