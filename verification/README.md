# Egg Mart POS: a verified model of its ledger, recovery and codecs

Dafny models of three parts of the Egg Mart POS backend, with proofs of what
they promise. `dafny verify dfyconfig.toml` checks everything.

**A. Stock, billing and credit.** The PostgreSQL rows are a map (`Tables`).
Each request is a list of statements its handler issues (`Handlers`), each
statement one conditional UPDATE, INSERT or SELECT. `Engine` interleaves any
number of such transactions at READ COMMITTED: an UPDATE or INSERT takes the
row lock and keeps it to commit or abort, an abort restores before-images, and
a plain SELECT sees the transaction's own writes and otherwise committed rows.
`Runs`, `Conservation`, `Journals`, `Guarantees`, `Credit` and `Branches` prove
what holds after every such interleaving. `LockOrder` proves that waiting never
closes a cycle, and `Deadlock` that the one condition this needs cannot be
dropped. `Sales`, `Cancellations` and `Purchases` say when one checkout,
cancellation, purchase or reversal goes through alone and what it does;
`Effects` says field by field what every committed request leaves in the rows,
and `Progress` when each step of an interleaving can happen;
`Reachable` proves that every reachable database is fit for those results, so
that they hold at the end of every run. `Checkouts` and `Receipts` say when a checkout
is taken and what its bill then shows, in terms of its request. `Store` holds the handlers in their own imperative form: a
class `Transaction` whose methods update the rows branch by branch, each proved
to do exactly what the statement list does, or to leave every row as it was.

**B. Throttle and recovery.** `Throttle` has the pure decisions and
`ThrottleRuns` the audit log and whole runs of attempts; `ThrottlePolicy` states
the policy in numbers. `CashierRecovery` and
`AdminRecovery` are state machines over atomic conditional updates, each with a
service class proved to take exactly those steps. Keyed hashes are injective
constructors, tokens are fresh nonces, instants are integers in milliseconds.

**C. Codecs and calendar.** `Crockford` (over `Bits`), `Csv`, `BillNumbers` and
`BusinessDays` (over `Calendar`), with the dates named one by one in
`NamedDays`.

Money stored in DECIMAL(12,2) columns is an integer number of paise; amounts
not yet rounded are exact reals, rounded half away from zero.

## How the rows are kept

- The reversal of a purchase is a flag on its row; it can be set once, as the
  unique key on the purchase makes it. Of a purchase's status the row keeps
  whether it is RECEIVED.
- A bill keeps its CHARGE amounts with its other fixed fields. The movement
  rows of one stock row, and the credit rows of one customer, are one row
  holding a list, appended to right after the update of the stock row or
  customer row and so under its lock. For charges and collections the code
  has the other order: it inserts the credit row before it updates the
  customer (src/services/creditService.ts:17-31, 62-78). Both are in one
  transaction, so what commits is the same.
- A movement's reason is a structured cause (sale, cancellation of a bill,
  purchase, reversal of a purchase, manual adjustment), not a text.
- Charging and collecting credit each read the customer and then write an
  absolute balance; here each is one atomic update under the customer's lock.

## Where the code and its promises part

- Purchases and their reversals lock stock rows in the order of the invoice.
  While every purchase lists its items in ascending product order nothing
  deadlocks (`LockOrder.DeadlockFree`); two that list the same two products in
  opposite orders can (`Deadlock.OppositeOrdersDeadlock`).
- The last day the period loop handles is 9999-12-30: with an end of 9999-12-31
  it never stops (`BusinessDays.NeverEnds`).
- RFC 4180's TEXTDATA is printable ASCII only. A reader that takes this
  literally accepts an export exactly when every character of every cell is
  printable ASCII, CR or LF (`Csv.LiteralGrammar`).
- A table without columns cannot be read back (`Csv.WideGrammar`).
- Waiting exactly as long as Retry-After says is enough if and only if each
  scope that is checked is released (`Throttle.RetryAfterExact`). A blocked
  address is released exactly when its releasing failure is not stamped after
  the check (`Throttle.IpWaitExact`). A blocked account is released exactly
  when its latest failure is not stamped after the check, or fewer than five
  failures are still in the window when the wait is over, or the delay those
  earn has run out (`Throttle.AccountWaitExact`). Five failures of an account,
  or twenty from an address, stamped a millisecond late show that it can fail.
- An empty idempotency key is stored and unique but never replayed
  (`Store.Transaction.CheckoutBill`).
- A stored balance exceeds its ledger by one paisa for every collection of an
  exact half paisa, and equals it exactly when there was none
  (`Credit.CreditAccounts`, `Credit.WholePaiseNeverDrift`).
- The payments stored with a bill add up to its total exactly when their
  roundings together add at most half a paisa and take away less than half a
  paisa (`BillMath.StoredPaymentsExact`); they can be off by half a paisa each
  (`BillMath.StoredPaymentsBoundAttained`).

## Model

| member | source | states |
|---|---|---|
| Money.RoundingError | src/lib/money.ts:35-37 | rounding moves an amount by at most half a paisa, ties upwards, whole paise not at all |
| Money.PaiseKinds | src/lib/money.ts:35-37 | an amount is in whole paise iff it is some number of paise, and on a half paisa iff it is 0.005 above one |
| Money.RoundedSum | src/services/creditService.ts:28-31 | rounding a stored balance plus an amount adds exactly the rounded amount |
| Money.RoundedDifference | src/services/creditService.ts:72-78 | rounding a stored balance minus a covered amount never goes below zero and is one paisa high exactly on a half paisa |
| Handlers.SortLinesFacts | src/services/billingService.ts:231 | the deduction order is the cart's lines, all of them, ascending by product |
| Handlers.SortLinesQty | src/services/billingService.ts:231-246 | sorting keeps each product's total quantity |
| Handlers.ProductsOfFacts | src/services/billCancellationService.ts:84-89 | merged products are distinct, ascending, and exactly those on the bill |
| Engine.AbortLeavesNoTrace | src/services/billingService.ts:214-303 | an aborted transaction leaves committed rows, free rows and every other transaction's view unchanged |
| Engine.CommitPublishes | src/services/billingService.ts:214-303 | a commit publishes exactly what its statements do to the rows committed so far |
| Engine.Serialisable | src/services/inventoryService.ts:79-107 | every interleaving, aborts included, commits what running the committed transactions in commit order gives, every conditional update succeeding there too |
| Runs.StepsRunOk | src/services/billCancellationService.ts:52-77 | in every run a transaction's statements stay those its request has in the committed rows, and new bill ids stay new |
| Progress.BeginExactly | src/services/billingService.ts:214-303 | a request starts exactly when it finds in the committed rows what it needs (a cart of positive lines and payments, its bill, positive quantities, a received purchase) and its transaction and bill ids are unused |
| Progress.AdvanceExactly | src/services/inventoryService.ts:79-107 | a running transaction goes on exactly when its next statement neither waits for another's lock nor fails on the row it sees |
| Progress.EndsAnyTime | src/services/billingService.ts:214-303 | a running transaction can be given up at any time, and commits once it is through |
| Progress.UnhinderedCommits | src/services/billingService.ts:214-303 | in any reachable state a request that would pass alone, and meets no lock, begins, runs and commits, and the committed rows are what its own run makes them |
| Progress.BilledPricesWereAsked | src/services/billingService.ts:215-226 | however transactions interleave, a checkout that gets to its commit bills every line at a price the branch asked at some moment after it began |
| LockOrder.CheckoutInOrder | src/services/billingService.ts:227-300 | a checkout takes contended locks in ascending order even when a cart repeats a product |
| LockOrder.CancelInOrder | src/services/billCancellationService.ts:68-129 | a cancellation takes bill, then stock and product rows by product, then customer |
| LockOrder.WaitsUpward | src/services/billingService.ts:227-230 | a transaction that holds a lock waits only for rows after it |
| LockOrder.NoWaitCycle | src/services/billingService.ts:227-230 | no chain of waiting transactions closes |
| LockOrder.DeadlockFree | src/services/billingService.ts:227-230 | over every run of all kinds of requests, with new and recorded purchases listing their items in product order, waiting is acyclic and someone can always proceed |
| Deadlock.Solo | src/services/inventoryService.ts:116-165 | a transaction whose next statements pass when it runs alone, and meet no other's lock, gets through them |
| Deadlock.OppositeOrdersDeadlock | src/routes/admin/purchases.ts:229-239 | wherever two products are on sale, two purchases listing them in opposite orders have a run after which each waits for the other |
| Totals.StaticTotals | src/services/inventoryService.ts:116-165 | statements that do not depend on the row they find change every total over all rows by the sum of their own gains |
| Conservation.CheckoutBalanced | src/services/billingService.ts:214-303 | a checkout's stock, bill and credit statements balance in every conservation equation |
| Conservation.CancelKeeps | src/services/billCancellationService.ts:52-157 | a cancellation keeps every conservation equation |
| Conservation.ReverseKeeps | src/routes/admin/purchases.ts:286-319 | a purchase reversal keeps every conservation equation |
| Conservation.ConservedKept | src/services/inventoryService.ts:86-235 | every request's transaction keeps stock and credit conserved |
| Journals.BlockEffect | src/services/inventoryService.ts:116-165 | one adjustStock moves quantity, aggregate and movement log together and nothing else, and never takes more than is there |
| Journals.JournalsKept | src/services/inventoryService.ts:116-232 | every request keeps the movement chains and the balance bounds |
| Journals.BillBookKept | src/lib/billNumber.ts:33-40 | every request keeps bill numbers gapless and idempotency keys pointing at their bills |
| Guarantees.EveryRunGood | src/services/inventoryService.ts:79-84 | after any interleaving the committed rows satisfy every ledger invariant |
| Guarantees.StockAccounts | src/services/inventoryService.ts:86-235 | after any run no stock row is negative, branch stock is adjustments plus unreversed purchases minus lines of PAID bills, and Product.stock is the sum over branches |
| Guarantees.MovementsReplay | src/services/inventoryService.ts:117-232 | after any run each stock row's movements chain and replay from zero to its quantity |
| Guarantees.CancelledOnce | src/services/billCancellationService.ts:15-22 | at most one cancellation of a bill ever commits, and exactly one has iff it is CANCELLED |
| Guarantees.CancellationEffects | src/services/billCancellationService.ts:79-140 | a CANCELLED bill has had each product put back at its branch once and its charges reversed once; any other bill nothing |
| Guarantees.OneBillPerKey | src/services/billingService.ts:103-109 | all calls sharing a shop and key that return normally return the same bill, in any interleaving |
| Guarantees.CheckedOutOnce | src/services/billingService.ts:248-263 | at most one checkout with a shop and key ever commits, and exactly one has iff the key exists |
| Guarantees.ViolationFindsBill | src/services/billingService.ts:340-351 | when the unique key refuses a checkout, the fallback read, however much later, finds the same committed bill of that shop and key |
| Guarantees.BillNumbersGapless | src/lib/billNumber.ts:33-43 | after any run with any aborts a shop's bills of a year carry exactly 1 to the counter, once each |
| Guarantees.OpeningGood | prisma/schema.prisma:165-190 | a shop before its first transaction satisfies every invariant |
| Credit.RequestDrift | src/services/creditService.ts:36-81 | a request moves balance minus ledger by one paisa exactly when it collects a half paisa |
| Credit.CreditAccounts | src/services/creditService.ts:8-81 | over every run a balance is never negative and exceeds its ledger by exactly one paisa per committed half-paisa collection |
| Credit.WholePaiseNeverDrift | src/services/creditService.ts:72-78 | in every run from books that agree, balance equals ledger iff no committed collection was of a half paisa, and so for whole-paise collections |
| Branches.BranchRowAccounts | src/services/inventoryService.ts:110-168 | in BRANCH mode the one row of a branch and product equals its adjustments, purchases and PAID sales |
| Branches.BillNumbersUnique | src/lib/billNumber.ts:4-24 | no two bills of any shops and years ever carry the same formatted number |
| BillNumbers.BillNumberInjective | src/lib/billNumber.ts:41-43 | the formatted number determines code, year and sequence, whatever the code and however long the sequence |
| BillNumbers.NumberReads | src/lib/billNumber.ts:41-43 | EM, the code, the year and at least six digits that read as the sequence number, dashes between |
| BillMath.LineTotalsAddUp | src/services/billingService.ts:172-178 | line totals rounded one by one add up exactly to the subtotal rounded once |
| BillMath.StoredPaymentsExact | src/services/billingService.ts:181-197 | accepted payments as stored add up to the total iff their roundings together lie above minus and at most plus half a paisa |
| BillMath.StoredPaymentsClose | src/services/billingService.ts:181-197 | n accepted payments as stored differ from the total by at most n/2 paise, and not at all for one payment or whole paise |
| BillMath.StoredPaymentsBoundAttained | src/services/billingService.ts:264-273 | every even number of half-paisa payments attains that bound |
| Sales.BlocksNet | src/services/inventoryService.ts:116-232 | a loop over adjustStock changes each stock row and aggregate by the sum of its deltas |
| Sales.CheckoutThenCancel | src/services/billCancellationService.ts:79-140 | a committed cancellation of a checkout just made undoes it on every stock row, aggregate and balance |
| Sales.PreCheckExact | src/services/billingService.ts:58-85 | for positive lines over assigned products the merged pre-check passes iff the sorted deduction loop succeeds, in both modes |
| Cancellations.CancelExact | src/services/billCancellationService.ts:48-157 | cancelling a PAID bill, run alone, succeeds exactly when the customer's balance still covers its charges, and otherwise fails with that error |
| Cancellations.CheckoutUndone | src/services/billCancellationService.ts:79-140 | right after a checkout its cancellation succeeds, and every stock row, aggregate and balance is as before |
| Purchases.ReceiveExact | src/routes/admin/purchases.ts:195-242 | a purchase run alone goes through iff its id is new and its catalogue items are on sale at the branch |
| Purchases.ReversalExact | src/routes/admin/purchases.ts:286-319 | a reversal run alone goes through iff its catalogue items are on sale and each product's merged quantity is still in stock, in both modes |
| Purchases.PurchaseUndone | src/routes/admin/purchases.ts:286-319 | right after a purchase its reversal goes through, and every stock row and aggregate is as before |
| Reachable.OpeningFit | prisma/schema.prisma:165-190 | a shop before its first transaction is fit: rows of their kind, no unknown products |
| Reachable.EveryRunFit | src/services/inventoryService.ts:97-104 | in every run rows keep their kind, purchases their positive quantities, and every bill's products stay known at its branch, through the listing checks its checkout passed |
| Reachable.CancelExactAlways | src/services/billCancellationService.ts:48-157 | after any run, cancelling any PAID bill succeeds alone exactly when the balance still covers its charges |
| Reachable.ReversalExactAlways | src/routes/admin/purchases.ts:286-319 | after any run, reversing any open purchase succeeds alone exactly when its items are on sale and still in stock |
| Reachable.AcceptedAlwaysCommits | src/services/billingService.ts:110-303 | after any run, an accepted checkout with a new bill id and a free key commits alone |
| Checkouts.AcceptedCommits | src/services/billingService.ts:110-303 | an accepted checkout that runs alone always commits |
| Checkouts.AcceptedPaymentsClose | src/services/billingService.ts:171-197 | what an accepted checkout stores adds up to within half a paisa per payment |
| Checkouts.TakenTokenRefused | src/services/billingService.ts:262 | a taken idempotency key makes the transaction fail |
| Checkouts.TakenTokenError | src/services/billingService.ts:340-351 | when the key of an otherwise acceptable checkout is taken, the unique violation is its error |
| Receipts.AcceptedExactly | src/services/billingService.ts:110-205 | the handler takes a checkout exactly when session, customer, listings, merged stock at its own stock row and payments are right, each said on the rows and the request |
| Receipts.EqualsMoneyExactly | src/lib/money.ts:35-49 | an exact sum of payments equals a total as money iff it is at least half a paisa below it and less than half a paisa above |
| Receipts.CheckoutRecorded | src/services/billingService.ts:248-263 | the bill has one line per item, in order, at the branch's override, zero included, or else the catalogue price, one payment per payment in lower case and rounded, the sum of price times quantity, and the next number |
| Receipts.CheckoutTaken | src/services/billingService.ts:227-300 | each product loses its items' units from the one stock row of the mode and from the aggregate, nothing else loses any, and the customer owes the rounded credit payments |
| Effects.CheckoutLogs | src/services/inventoryService.ts:150-165 | a checkout logs one sale per line of each product, in cart order, on its own stock rows and no others |
| Effects.CheckoutCharges | src/services/creditService.ts:8-31 | it posts one CHARGE row per credit payment, for its bill, to its own customer and no other |
| Effects.CommitsAtCurrentPrices | src/services/billingService.ts:217-226 | run alone it commits only at the prices and of the listings in the rows |
| Effects.StaleCheckoutStops | src/services/billingService.ts:217-226 | a checkout whose price of some line is no longer the branch's stops with the changed-price error |
| Effects.CancelLogs | src/services/billCancellationService.ts:79-106 | a cancellation logs one inward movement of each product's merged quantity, naming bill, cashier and canceller, on the stock it was sold from and nowhere else |
| Effects.CancelRefunds | src/services/billCancellationService.ts:108-140 | it posts one REVERSAL row of the bill's charges, when they are above zero, to the bill's customer |
| Effects.CancelFrame | src/services/billCancellationService.ts:68-77 | it marks its PAID bill CANCELLED and changes nothing but stock and the bill's customer |
| Effects.ReceiveLogs | src/routes/admin/purchases.ts:229-239 | a purchase logs one inward movement per catalogue item, at its branch, naming purchase, cashier and admin |
| Effects.ReverseLogs | src/routes/admin/purchases.ts:296-313 | a reversal logs one outward movement per catalogue item, at the purchase's branch |
| Effects.ReceiveRecords | src/routes/admin/purchases.ts:195-226 | a purchase records its branch and items as RECEIVED under a new id and changes nothing else but stock |
| Effects.ReverseRecords | src/routes/admin/purchases.ts:286-291 | a reversal finds an unreversed purchase and changes its row only by marking it |
| Effects.SecondStops | src/services/billCancellationService.ts:68-77 | the second of two cancellations, of two reversals, or of two purchases with one id stops at once with its error |
| Effects.AdjustWrites | src/services/inventoryService.ts:110-235 | an adjustment adds its delta to the one stock row and to the aggregate, never below zero, logs it with its admin, and changes nothing else |
| Effects.AssignWrites | src/lib/branchCatalog.ts:98-128 | an assignment changes one listing flag, keeps its price, and nothing else |
| Effects.PriceWrites | src/routes/admin/branchProducts.ts:119-134 | a price change replaces one listing's override, keeps its flag, and nothing else |
| Effects.PriceAlone | src/routes/admin/branchProducts.ts:119-134 | a price change goes through exactly where the branch has a listing |
| Effects.CollectWrites | src/services/creditService.ts:36-81 | a collection finds a covering balance in the branch, lowers it by the rounded amount, a paisa less on an exact half, posts it, and changes nothing else |
| Store.Transaction.AdjustBranchStock | src/services/inventoryService.ts:110-168 | the branch row, aggregate and movement change as one statement list says, or an error |
| Store.Transaction.AdjustCashierStock | src/services/inventoryService.ts:171-235 | the cashier row likewise; without a cashier nothing moves |
| Store.Transaction.AdjustStock | src/services/inventoryService.ts:86-107 | an unlisted product is refused, otherwise the row of the mode is adjusted |
| Store.Transaction.AssertStockAvailable | src/services/billingService.ts:58-85 | passes iff every product's merged quantity is there; otherwise the first line that lacks it names the error |
| Store.Transaction.CheckCart | src/services/billingService.ts:111-146 | passes iff cart, payments, session, customer and every item are acceptable; otherwise the first check that fails names the error |
| Store.Transaction.GrandTotal | src/services/billingService.ts:171-178 | the accumulated, twice rounded total is the sum of the stored line totals |
| Store.Transaction.CheckPayments | src/services/billingService.ts:181-205 | passes iff the payments settle the total: known methods, positive amounts, a sum within half a paisa, a customer for credit; otherwise the first failure names the error |
| Store.Transaction.NextBillNumber | src/lib/billNumber.ts:22-44 | takes the next counter value and formats it |
| Store.Transaction.CheckoutBill | src/services/billingService.ts:100-352 | replays a key; otherwise succeeds exactly when the rows and the request are acceptable, and then bills each item at the branch's price, takes its stock and charges its credit; else the first failing check names the error and every row is left |
| Store.Transaction.MergeLines | src/services/billCancellationService.ts:79-89 | gathers each product's total quantity and the products in ascending order |
| Store.Transaction.CreditToReverse | src/services/billCancellationService.ts:108-116 | sums the bill's charges |
| Store.Transaction.CancelBill | src/services/billCancellationService.ts:48-157 | commits exactly the cancellation of a PAID bill; each refusal has its error and leaves every row |
| Store.Transaction.ResolveStockCashier | src/lib/stockActor.ts:16-25 | a cashier that is given must be an active one of the shop; without one only BRANCH mode goes on |
| Store.Transaction.CreatePurchase | src/routes/admin/purchases.ts:166-242 | refuses a bad body, an unknown branch, a wrong cashier or an unlisted item, each with its error and no change; otherwise creates the purchase and receives its catalogue items, or nothing |
| Store.Transaction.ReverseReceived | src/routes/admin/purchases.ts:265-343 | refuses an unknown, reversed or not RECEIVED purchase or a wrong cashier with its error; otherwise reverses it, or leaves every row with the reported error |
| Store.Transaction.SetBranchAssignment | src/lib/branchCatalog.ts:98-128 | changes only the listing, keeps the price override, reports whether it changed, and is the assignment's transaction |
| Store.Transaction.CollectPayment | src/services/creditService.ts:36-81 | collects exactly when the customer, the amount and the balance allow it, never below zero; each refusal has its error and leaves every row |
| Throttle.AccountBlockedExactly | src/lib/recoveryThrottle.ts:48-69 | an account is blocked exactly until its latest failure plus the delay its recent failures earn |
| ThrottlePolicy.AccountPolicy | src/lib/recoveryThrottle.ts:34-69 | under five failures in 15 minutes never block; five to nine block for 30, 60, 120, 240 and 480 seconds after the latest, ten or more for 900 |
| ThrottlePolicy.AddressPolicy | src/lib/recoveryThrottle.ts:75-88 | an address is blocked iff twenty failures lie in the hour before the check |
| ThrottlePolicy.AddressWait | src/lib/recoveryThrottle.ts:75-88 | the wait it is told is until the twentieth from the end is an hour old, in whole seconds, at least one |
| ThrottlePolicy.CheckPolicy | src/lib/recoveryThrottle.ts:91-145 | a check blocks iff the account or the address is blocked, and reports the longer wait |
| Throttle.IpBlockedExactly | src/lib/recoveryThrottle.ts:75-88 | an address is blocked exactly until its 20th failure from the end is an hour old, whatever the log order |
| Throttle.ReleasingFailure | src/lib/recoveryThrottle.ts:128-142 | the row picked by skip count - 20 is that failure |
| Throttle.WaitingUnblocks | src/lib/recoveryThrottle.ts:106-145 | waiting out the combined retry time or longer unblocks both scopes if no row is later than the check |
| Throttle.AccountWaitExact | src/lib/recoveryThrottle.ts:48-69 | the wait reported for an account is enough iff its latest failure is not later than the check, or under five failures stay in the window, or what those earn has run out |
| Throttle.IpWaitExact | src/lib/recoveryThrottle.ts:75-88 | the wait reported for an address is enough iff its releasing failure is not later than the check |
| Throttle.RetryAfterExact | src/lib/recoveryThrottle.ts:91-145 | the combined wait is enough iff each scope that is checked is released, read off the log at the check |
| Throttle.ClampUnderstates | src/lib/recoveryThrottle.ts:60-64 | five failures stamped a millisecond after the check leave the account blocked when the promised 30 seconds are over |
| Throttle.IpClampUnderstates | src/lib/recoveryThrottle.ts:83-87 | twenty failures stamped a millisecond after the check leave the address blocked when the promised hour is over |
| ThrottleRuns.OnlyAllowedFailuresCount | src/lib/recoveryThrottle.ts:98-181 | an attempt adds to a count only as a failure its own check let through |
| ThrottlePolicy.VerificationAdds | src/lib/recoveryThrottle.ts:98-181 | a code or passkey attempt that is neither blocked nor genuine adds its instant to its account's and its address's times; any other adds nothing |
| ThrottlePolicy.ConfirmationAdds | src/lib/recentAuth.ts:28-67 | a confirmation adds, in the same way, only to its own account's confirmation times |
| ThrottlePolicy.FifthFailureBlocks | src/lib/recoveryThrottle.ts:98-101 | five failures of one account at one instant, codes and passkeys mixed, block its next attempt of either kind |
| ThrottleRuns.AtMostNineFailures | src/lib/recoveryThrottle.ts:48-69 | in every serialised run a closed 15-minute window holds at most nine counted failures of an account |
| ThrottleRuns.NineFailuresFit | src/lib/recoveryThrottle.ts:34-37 | nine are attained |
| ThrottleRuns.AtMostTwentyPerHour | src/lib/recoveryThrottle.ts:75-94 | in every serialised run a half-open hour holds at most twenty failures of an address |
| ThrottleRuns.LongAddressNeverBlocked | src/lib/recoveryAudit.ts:51-65 | an address longer than the log keeps is never blocked |
| ThrottleRuns.ThrottledDoesNotExtend | src/lib/recoveryThrottle.ts:166-181 | a throttled attempt changes no later decision |
| ThrottleRuns.AuditLog.CheckRecoveryThrottle | src/lib/recoveryThrottle.ts:106-145 | the queries and decisions together compute the check |
| ThrottleRuns.AuditLog.Handle | src/lib/recentAuth.ts:28-67 | an attempt goes through iff it is genuine and not blocked, and records what it must |
| CashierRecovery.AlwaysValid | src/lib/cashierRecovery.ts:77-416 | in every reachable state a code hash is present iff APPROVED, consumedAt iff COMPLETED and before expiresAt, deadlines are 15 minutes, and one request per account is active |
| CashierRecovery.FinishedForever | src/lib/cashierRecovery.ts:260-332 | finished requests stay as they are, deadlines never move, an approval's code is never replaced |
| CashierRecovery.ResetOnce | src/lib/cashierRecovery.ts:393-416 | a request resets the password exactly once iff it is COMPLETED |
| CashierRecovery.ResetUsesOwnCode | src/lib/cashierRecovery.ts:381-416 | every reset redeems, in time, the code an earlier approval of that request gave, for its account |
| CashierRecovery.ResetsAreCompletions | src/lib/cashierRecovery.ts:408-416 | an account is reset as often as it has COMPLETED requests and otherwise keeps its password |
| CashierRecovery.FiveRequestsPerHour | src/lib/cashierRecovery.ts:120-138 | no rolling hour holds more than five requests of an account |
| CashierRecovery.TenRequestsPerAddress | src/lib/cashierRecovery.ts:98-112 | no rolling hour holds more than ten requests from an address |
| CashierRecovery.SubmitDecides | src/lib/cashierRecovery.ts:94-150 | which of the four answers a submission gets, on the account's own rows |
| CashierRecovery.CashierRecoveryService.SubmitRecoveryRequest | src/lib/cashierRecovery.ts:94-173 | when the address may: IGNORED exactly for an unknown or ineligible account, THROTTLED exactly from five requests in the last hour, DUPLICATE exactly while one is open, else CREATED with one new PENDING row for 15 minutes |
| CashierRecovery.CashierRecoveryService.ApproveRecoveryRequest | src/lib/cashierRecovery.ts:229-303 | approves exactly a PENDING, unexpired request of an active cashier and keeps its deadline; an unknown request is not found, one past its time has expired, a live one of an ineligible account or no longer PENDING says so |
| CashierRecovery.CashierRecoveryService.RejectRecoveryRequest | src/lib/cashierRecovery.ts:229-332 | rejects exactly an active, unexpired request; an unknown request is not found, one past its time has expired, a live finished one is not actionable |
| CashierRecovery.CashierRecoveryService.ResetPasswordWithCode | src/lib/cashierRecovery.ts:351-453 | succeeds iff the audit log does not throttle it, the password is strong and the typed code opens the account's request; then request, password and sessions change together; throttled and failed attempts are recorded |
| AdminRecovery.AlwaysOk | src/lib/recoveryCodes.ts:67-136 | over every run code grants equal used codes per account, at most eight codes are live, passkey grants never outnumber consumed challenges |
| AdminRecovery.CodeUsedOnce | src/lib/recoveryCodes.ts:103-136 | a code buys exactly one grant iff it is marked used |
| AdminRecovery.GrantRedeemedOnce | src/lib/recoveryGrant.ts:68-93 | a grant buys at most one reset, and then is consumed |
| AdminRecovery.EveryGrantIssued | src/lib/adminRecovery.ts:134-315 | every grant was issued to its account by a step that used a live code of it, or an earlier claimed challenge and a passkey of it |
| AdminRecovery.ResetIsPaidFor | src/lib/adminRecovery.ts:346-379 | over every run a changed password was paid for: the step redeems a grant of that account that an earlier step issued for such a credential |
| AdminRecovery.OldGrantsAreDead | src/lib/recoveryGrant.ts:95-106 | a grant issued before a committed reset of its account is never redeemed afterwards |
| AdminRecovery.LastResetWins | src/lib/adminRecovery.ts:346-379 | over every run an account's password is the one its last reset gave, or the first one if it was never reset |
| AdminRecovery.TokenRule | src/lib/recoveryCrypto.ts:112-120 | a grant token is well formed iff it is 43 letters, digits, underscores and hyphens |
| AdminRecovery.AdminRecoveryService.GenerateRecoveryCodeSet | src/lib/recoveryCodes.ts:50-101 | for an active admin every live code is revoked and eight new ones are added, nothing else changes; a repeated code is refused |
| AdminRecovery.AdminRecoveryService.ConsumeRecoveryCode | src/lib/recoveryCodes.ts:122-136 | true exactly when a live code of the account matches, which is then used |
| AdminRecovery.AdminRecoveryService.VerifyRecoveryCode | src/lib/adminRecovery.ts:134-172 | code and grant together or neither, with one error for every failure; throttled by and recorded in the shared audit log |
| AdminRecovery.AdminRecoveryService.VerifyPasskeyRecovery | src/lib/adminRecovery.ts:227-315 | spends the challenge first and grants only for the passkey's own account; throttled by and recorded in the shared audit log |
| AdminRecovery.AdminRecoveryService.ConsumeRecoveryGrant | src/lib/recoveryGrant.ts:68-93 | redeems exactly a well-formed, open grant of the same client; otherwise consumes nothing |
| AdminRecovery.AdminRecoveryService.ResetPasswordWithGrant | src/lib/adminRecovery.ts:319-379 | stores the new password, and no other user's, revokes all sessions and consumes all open grants of the account together, or changes nothing |
| Bits.MaskIsLow | src/lib/recoveryCrypto.ts:44 | masking with 2^k - 1 keeps the k lowest bits |
| Bits.OrIsAdd | src/lib/recoveryCrypto.ts:38 | or-ing a byte into shifted bits adds it |
| Bits.FiveBits | src/lib/recoveryCrypto.ts:41 | the bits above a position split into the next digit and the rest |
| Crockford.AddByte | src/lib/recoveryCrypto.ts:37-39 | after taking a byte the accumulator is below 2^12 |
| Crockford.EncodeCrockford | src/lib/recoveryCrypto.ts:33-48 | the loop emits the base-32 expansion of the big-endian number, zero-padded at the low end, ceil(8n/5) digits |
| Crockford.RoundTrip | src/lib/recoveryCrypto.ts:33-48 | a decoder gives the bytes back, for every length |
| Crockford.NormalizeAccepts | src/lib/recoveryCrypto.ts:62-70 | a text normalises to a code iff it is at most 64 characters and spells it, 32 characters of the alphabet, up to case, separators, look-alikes and the letters whose upper case is ASCII |
| Crockford.GroupedExactly | src/lib/recoveryCrypto.ts:51-54 | groups of four in order with one dash between two groups |
| Crockford.GenerateRecoveryCode | src/lib/recoveryCrypto.ts:51-54 | the code shown for 20 random bytes is 39 characters, their encoding in groups of four with dashes between, and normalises to that encoding |
| Crockford.DisplayNormalizes | src/lib/recoveryCrypto.ts:51-54 | the displayed form of 20 bytes normalises to the raw code, which decodes to the bytes |
| Csv.BuildCsv | src/services/exportService.ts:79-83 | the loop writes the table's text |
| Csv.EscapeExactly | src/services/exportService.ts:71-76 | a value is quoted iff it contains a quote, a comma, CR or LF, and written as it is otherwise; null is nothing |
| Csv.RoundTrip | src/services/exportService.ts:71-83 | an RFC 4180 section 2 reader gives back the headers and then, row by row and column by column, each value, null or missing as the empty field |
| Csv.LiteralGrammar | src/services/exportService.ts:71-83 | with TEXTDATA taken literally it reads back iff every character is printable ASCII, CR or LF, and is refused otherwise |
| Csv.WideGrammar | src/services/exportService.ts:71-83 | with TEXTDATA widened it reads back iff there is a column |
| Calendar.DateOrder | src/lib/consolidationScope.ts:76-78 | dates are ordered and told apart as their day numbers are |
| NamedDays.EpochNamed | src/lib/consolidationScope.ts:72-88 | for every offset the instants of the first day after 1970-01-01T00:00 in business time are named 1970-01-01, which starts then |
| NamedDays.NextDateNamed | src/lib/consolidationScope.ts:72-78 | a day later is the next date: the next day of the month, or the 1st of the next month, or of January; months have 30 or 31 days, February 28 or 29 |
| NamedDays.DayLasts | src/lib/consolidationScope.ts:81-88 | a named day starts and ends 24 hours apart, and exactly its instants are named so |
| NamedDays.ValidExactly | src/lib/consolidationScope.ts:65-69 | a string is valid iff it is four, two and two digits that name a day by the literal month lengths |
| BusinessDays.ValidYmdExactly | src/lib/consolidationScope.ts:65-69 | a string is valid iff it names a day of the years 0000 to 9999 |
| BusinessDays.ParsesExactly | src/lib/consolidationScope.ts:76-78 | which ten characters the date constructor takes: four, two and two digits, or a plus sign, six and two digits, with a month from 1 to 12 and a day up to 31 |
| BusinessDays.StringOrderIsDayOrder | src/lib/consolidationScope.ts:108-112 | string order is calendar order for the years up to 9999 |
| BusinessDays.DaysInPeriod | src/lib/consolidationScope.ts:108-112 | the loop stops and lists exactly the consecutive days, for every end but 9999-12-31 |
| BusinessDays.NeverEnds | src/lib/consolidationScope.ts:108-112 | with the end 9999-12-31 the loop goes on after any number of turns |
| BusinessDays.InstantInDay | src/lib/consolidationScope.ts:72-88 | an instant lies in a day's interval iff the business calendar names that day |
| BusinessDays.DaysTilePeriod | src/lib/consolidationScope.ts:81-112 | for every offset the days' intervals follow without gap or overlap and cover the period |
| BusinessDays.CustomDates | src/lib/consolidationScope.ts:147-165 | custom dates are accepted iff they name ordered days, at most 366 |
| BusinessDays.ResolveConsolidationPeriod | src/lib/consolidationScope.ts:121-176 | a range resolves iff it stands for 1, 1, 7, 30 or a custom number of days, to their exact span of instants |
| Text.PaddedValue | src/lib/billNumber.ts:42 | padding a number to a width loses nothing |
| Text.BlankExactly | src/services/billCancellationService.ts:49-50 | a text is blank iff every character is white space, that is iff trimming leaves nothing |
| Text.TrimExactly | src/lib/consolidationScope.ts:126 | trimming takes white space off both ends and nothing else |
| Text.SpaceExactly | src/lib/recoveryCrypto.ts:66 | white space is the ECMAScript white space and line terminators |
| Text.LowerExactly | src/services/billingService.ts:184 | lower case takes each of the 26 letters to its small letter and leaves every other character |
| Text.PasswordRule | src/lib/password.ts:9-15 | a strong password has eight characters, a letter and a digit |

## Left out

- Engine.Serialisable: plain SELECTs (listing check, price re-check, the bill read before it is claimed) see committed rows at their own moment and are not part of the serial order; only writes are replayed.
- LockOrder.DeadlockFree: foreign-key share locks and the shared lock on the inventory flag are not modelled.
- ThrottleRuns.AtMostNineFailures: stated for attempts handled one after another, because check and record are separate statements.
- ThrottleRuns.AtMostTwentyPerHour: likewise, and for addresses under 64 characters, which every textual IP address is; one of 64 needs that no longer one occurs, since the log keeps 64.
- CashierRecovery.FiveRequestsPerHour: the submit transaction is one atomic step and its captured instants do not go back, because its count and insert are separate statements.
- CashierRecovery.TenRequestsPerAddress: likewise, and for the same addresses.
- AdminRecovery.OldGrantsAreDead: each transaction is one atomic step, so a grant inserted while the reset is still running counts as issued before or after it.
- Store.Transaction.CheckCart: an empty customerId is looked up like any other; the code skips the check for it and the bill's foreign key refuses it later.
- BusinessDays.ResolveConsolidationPeriod: instants before 0000-01-30 and after 9999-12-31, offsets that are not whole minutes, and the label text are not modelled.
- Lost updates on the credit balance: charge and collection are atomic here.
- The CASHIER to BRANCH cutover: the inventory mode is fixed for a whole run.
- Creating products, customers, sessions and listings: they are given at the start; shops and user accounts are parameters.
- Suppliers, purchase prices and totals: they move no stock.
- HELD bills, bill printing fields, cash received and change: they move no stock and no credit.
- Fractional quantities and decimal precision limits: quantities are integers and decimals exact.
- Product ids compare by character, as ASCII ids do in JavaScript.
- The read-only stock maps, withBranchStock and assignProductToAllBranches: easy members.
- WebAuthn, bcrypt, HMAC and random generation: an abstract check, passwords as given, injective constructors, fresh nonces.
- Base64url tokens, the UTF-8 encoding of exports, spreadsheet and PDF exports, audit rows other than the throttle's: no arithmetic or state of interest.
