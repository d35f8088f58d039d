# Verified model of the Natours booking backend

This project states in Dafny what the booking backend's row-locking services do and proves what they
keep, over every reachable state and every interleaving. `dafny verify dfyconfig.toml` checks it.

## What is modelled

**Bookings, payments, departures, tours, reviews.** `Rows.dfy` holds the tables, `BookingTx.dfy`,
`CatalogTx.dfy` and `ReviewTx.dfy` each database transaction as a function from tables to tables that
commits or aborts, and `Pricing.dfy` the price arithmetic. `Machine.dfy` is the state machine: a
transaction is one step, because every row that is read and then written is locked; an operation that
calls the payment provider between transactions is cut at every await, and what is left of it is a
flight that any other step may overtake, that may throw, and that may be lost in a crash. The machine
carries history: consumed events, refunds the provider reported, returned seats, and the request that
made each booking. `Invariant.dfy` names what every reachable state satisfies; `RowsKept.dfy`,
`ReviewsKept.dfy`, `MovesKept.dfy`, `StepsKept.dfy` and `BookingSteps.dfy` prove it step by step;
`Safety.dfy`, `Transitions.dfy`, `Timeline.dfy` and `Webhooks.dfy` draw the conclusions. `Database.dfy`,
`BookingsService.dfy` and `CatalogServices.dfy` are the services over mutable tables, statement by
statement, each method proved to be its transaction and to keep what `Promises.dfy` says a caller may
rely on; `Jobs.dfy` relates the uninterrupted operations to the machine, `BatchJobs.dfy` says what the
recovery and reconciliation batches do to the rows they select, and `Gateway.dfy` shows that the fake
provider is a provider the machine allows. `BookingAnswers.dfy` and `CatalogAnswers.dfy` say on the rows
alone when each call is accepted, what it answers otherwise and what it writes, and `BookingHistory.dfy`
where the bookings of a run come from; `RatingFacts.dfy` says what a rating means. `CancelledLost.dfy`,
`LateFailures.dfy`, `LatePayment.dfy` and `Refunds.dfy` are about what the code does not keep, and exactly
when.

**Outbox, relay, queue, worker.** `Outbox.dfy` is the machine: relays that skip locked rows, a queue
that redelivers, workers with an effect ledger, a mail provider that deduplicates, crashes anywhere.
`OutboxSafety.dfy` has its invariant and theorems, `OutboxHistory.dfy` those about which enqueue a mail
comes from; `Relay.dfy` and `Worker.dfy` are the loops over mutable state and their agreement with the
machine; the worker also runs the booking batches.

**Tour media.** `Positions.dfy` is the numbering algebra, `Media.dfy` the transactions on image rows,
`MediaStorage.dfy` the machine of uploads and deletions over an object store where any put or delete
may fail (and a failed one may still have happened), `MediaSafety.dfy` its invariant and theorems.
`MediaTables.dfy`, `ObjectStorage.dfy` and `MediaService.dfy` are the service over mutable state with
the unique index on positions enforced at every single update; `MediaCleanup.dfy` is the cleanup
script's renumbering loop. `MediaAnswers.dfy` states the transactions row by row.

**Guide teams** (`Teams.dfy`, `TeamSafety.dfy`, `TeamAnswers.dfy`, `TeamServices.dfy`): users, tours, slugs
and assignments. **Analytics** (`Analytics.dfy`, `AnalyticsFacts.dfy`, `Rankings.dfy`,
`StatisticsFacts.dfy`, `ReportFacts.dfy`): the reports as sums over the booking and payment tables.
**Rate limiter** (`Limiter.dfy`): the script on two expiring keys and its bounds over every trace of hits.

Identifiers are indexes or fresh numbers, instants are integers in milliseconds, money is in cents,
percentages are in hundredths of a percent. Clock readings and provider answers are parameters.

## What the code does not keep

- `cancelled` is not absorbing. A refund attempt that failed may write `cancellation_failed` after a
  webhook or a reconciliation finished the cancellation (`src/bookings/bookings.service.ts:558-561`).
  `CancelledLost` exhibits the run, `Transitions.CancelledLeavesExactly` says that nothing else does it,
  and `LateFailures.CancelledLostExactly` that it can happen from a state exactly while such an attempt
  is in flight; none starts any more. The seats are still returned once.
- Such a booking never leaves `cancellation_failed` again with its seats already returned
  (`Safety.StuckAfterRelease`), although `docs/02_DOMAIN.md:65` says that failed refunds preserve
  capacity.
- A payment that completes after its hold expired is consumed without effect
  (`LatePayment.PaidTooLate`): the booking stays expired and nothing ever asks for a refund
  (`LatePayment.LatePaymentIsSwallowed`, `LatePayment.ExpiredIsNeverRefunded`). It confirms exactly when
  the booking is still pending and the payment id is free (`LatePayment.PaidConfirmsExactly`).
- A create request repeated during a pending cancellation rewrites the payment to `checkout_open`, and the
  reconciler then passes the unpaid refund over (`Refunds.ReplayHidesTheRefund`);
  `Refunds.ReachLostExactly` says which writes do that: this one, and the record of a granted refund whose
  operation is lost before it finishes the cancellation.
- The limiter admits up to twice the limit less one within one `ttl` (`Limiter.SpanBound`,
  `Limiter.SpanBoundMet` for every policy with a `ttl` of at least two).
- A put that stores its object and still reports failure leaves an object without a row once the upload
  withdraws: `MediaSafety.OrphansAppearExactly` and `MediaSafety.LyingPutLeavesOrphan`. With a store
  whose failed puts store nothing there are no orphans.
- Ending a guide's assignments does not make the user deletable: the ended rows restrict the deletion
  (`TeamSafety.ServedOnceStaysForever`), although `src/users/users.service.ts:142-144` only asks for
  the assignments to be removed.

## Model

| member | source | states |
|---|---|---|
| Safety.NeverOversold | src/bookings/bookings.service.ts:139-157 | On every run each departure's available spots are non-negative, its reserved spots are exactly the summed quantity of its unreleased bookings, a deleted departure has none reserved, and a live one fits its live tour's maximum group size. |
| Safety.InventoryNeverInconsistent | src/bookings/bookings.service.ts:606-607 | The inconsistent-inventory guard is unreachable: in no reachable state does a cancel, webhook, expiry or refund finalization abort with it. |
| Safety.ReleasedOnce | src/bookings/bookings.service.ts:593-625 | On every run a booking has given its seats back exactly once if it is marked released and never otherwise; pending, confirmed and cancellation-pending bookings have not, expired and cancelled ones have. |
| Safety.SnapshotStands | src/tours/departures.service.ts:91-138 | While a booking is unreleased its departure is active, undeleted, starts at the instant the customer bought and belongs to a live tour, whatever administrators do. |
| Safety.StatusForward | src/bookings/bookings.service.ts:251-385 | From any reachable state through any further run: expired and free cancelled bookings stay so, the paid cancellation states are closed, nothing returns to confirmed or to pending payment. |
| Safety.StuckAfterRelease | src/bookings/bookings.service.ts:558-561 | A released booking that fell back to cancellation_failed never leaves it again and its seats were returned once. |
| Safety.ConfirmedOnlyIfPaid | src/bookings/bookings.service.ts:315-331 | A booking that costs something is confirmed or in a cancellation state only if a paid completed event with its checkout id, amount and currency was consumed. |
| Safety.SeatsReturnOnlyIfRefunded | src/bookings/bookings.service.ts:546-584 | A bought booking's seats are back only if the provider reported a refund of its full amount. |
| Safety.ReviewsStayBacked | src/reviews/reviews.service.ts:71-89 | In every reachable state each review's author holds a confirmed booking of that tour whose snapshotted departure is past. |
| Safety.RatingsAgree | src/reviews/reviews.service.ts:184-199 | On every run a tour's rating count and average are those of the stored reviews; the average is null exactly without reviews and otherwise between 1.00 and 5.00. |
| RatingFacts.RatingIsTheMean | src/reviews/reviews.service.ts:184-199 | On every run a tour's rating count is the number of stored reviews that name it and its average the mean of their stars in hundredths, rounded half-up; no reviews, no average. |
| Safety.OneBookingPerKey | src/bookings/bookings.service.ts:95-109 | Any number of create calls with one user and key make at most one booking. |
| Safety.ProvenanceCovers | src/bookings/bookings.service.ts:158-198 | Every booking has the user, departure and traveler count of the one request that made it, and a payment row exactly when it costs something. |
| BookingHistory.EveryBookingWasOnSale | src/bookings/bookings.service.ts:115-206 | On every run each booking was made by one create with an unused key, at an instant when the departure was open, not yet started and had room, and then had exactly the row, seats, payment and key that create writes. |
| BookingHistory.BookedBeforeStart | src/bookings/bookings.service.ts:131-137 | On every run each booking row appeared at an instant before the start it carries, for good. |
| Safety.ReplayAnswersTheSame | src/bookings/bookings.service.ts:105-109 | After a successful create, whatever runs next, the same key and request answer the same booking and write nothing, and the same key with another request is refused. |
| Safety.CheckoutNeverChanges | src/bookings/bookings.service.ts:490-500 | A booking's provider checkout id never changes once it is stored, on any further run. |
| Safety.StepKeeps | src/bookings/bookings.service.ts:70-625 | One step of any kind (any transaction, any continuation of an operation cut at a provider call, any crash) keeps the whole invariant and only moves rows forward. |
| Safety.RunKeeps | src/bookings/bookings.service.ts:467-592 | Every interleaving of such steps keeps the invariant. |
| Transitions.PendingLeavesExactly | src/bookings/bookings.service.ts:315-335 | A pending booking becomes confirmed in one step exactly by a fresh, paid webhook that matches its checkout, amount and currency; expired exactly by a matching expiry webhook or a due hold; and is otherwise unchanged. |
| Transitions.CancelledLeavesExactly | src/bookings/bookings.service.ts:549-562 | A cancelled booking leaves that status in one step exactly when a refund attempt that had already failed writes its verdict late; it then is cancellation_failed with its seats released. |
| LateFailures.CancelledLostExactly | src/bookings/bookings.service.ts:518-563 | From every reachable state with a cancelled booking, some further run loses the status if and only if a refund attempt of that booking that can still end in failure is in flight. |
| LateFailures.NoneStarts | src/bookings/bookings.service.ts:432-443 | Once a booking is cancelled no step adds to its refund attempts: only those already under way go on. |
| CancelledLost.CancelledCanBeLost | src/bookings/bookings.service.ts:518-563 | A concrete run from the empty database reaches cancelled and then loses it to cancellation_failed, with the seats returned once. |
| LatePayment.PaidConfirmsExactly | src/bookings/bookings.service.ts:315-331 | A fresh event that pays a booking in full changes its rows if and only if the booking is still pending and no other payment carries the provider payment id, and it then confirms it; otherwise every row stays. |
| LatePayment.LatePaymentIsSwallowed | src/bookings/bookings.service.ts:284-331 | In every reachable state a full payment for a booking that no longer waits leaves every row, starts nothing, and cannot take effect on any further run however often it is delivered. |
| LatePayment.ExpiredIsNeverRefunded | src/bookings/bookings.service.ts:358-383 | On every further run of an expired booking it stays expired, no refund operation for it is ever in flight and the provider never reports a refund for it. |
| LatePayment.PaidTooLate | src/bookings/bookings.service.ts:315-316 | A concrete run from the empty database books, opens a checkout, expires the hold and then delivers the paid event: it is consumed, the booking stays expired, nothing is in flight. |
| Refunds.RefundAlwaysAsks | src/bookings/bookings.service.ts:518-532 | On every run a refund that starts asks the provider, with the payment it holds and the full amount; the silent early return is unreachable. |
| Refunds.ReachLostExactly | src/bookings/bookings.service.ts:432-443 | An unreleased cancellation that waits for its refund leaves the reconciler's selection in one step, without being finished, exactly when a repeated create rewrites its payment to checkout_open or a granted refund is recorded. |
| Refunds.ReplayHidesTheRefund | src/bookings/bookings.service.ts:475-500 | A concrete run: pay, cancel, lose the refund in a crash, send the create again; the cancellation is pending, its payment reads checkout_open, nothing is in flight and the reconciler passes it over. |
| BookingSteps.CheckoutIdFree | src/bookings/bookings.service.ts:490-500 | In a state of the invariant the unique index on checkout ids never rejects what openCheckout writes. |
| BookingAnswers.CreateExactly | src/bookings/bookings.service.ts:76-206 | An unused key books if and only if the user is verified, the key is 1 to 255 visible characters, the roster is not empty, the departure is active, undeleted and starts later, its tour is active and undeleted, and the roster fits the tour and the available spots; then exactly the stated row, seats, payment and key are written, else the stated error is answered. |
| BookingAnswers.ReplayExactly | src/bookings/bookings.service.ts:95-109 | A used key writes nothing: it answers its booking for the same request and refuses any other. |
| BookingAnswers.CancelExactly | src/bookings/bookings.service.ts:251-279 | The owner's confirmed booking is cancelled if and only if the cutoff has not passed, closed ones answer again without a write, pending and expired ones are refused, strangers find nothing; a free one gives its seats back, a paid one becomes cancellation_pending with its payment refund_pending. |
| BookingAnswers.DeliverAddressedExactly | src/bookings/bookings.service.ts:286-313 | A repeated event is acknowledged without a write, and a fresh one that names no booking with its payment is refused. |
| BookingAnswers.CompletedExactly | src/bookings/bookings.service.ts:315-331 | A completed checkout confirms a pending booking if and only if it is paid, names its checkout, amount and currency and a payment id of its own; a mismatch is refused, and any other status uses the event up. |
| BookingAnswers.ExpiredExactly | src/bookings/bookings.service.ts:332-335 | An expired checkout ends a pending booking and returns its seats if and only if it is the booking's own, and is used up otherwise. |
| BookingAnswers.RefundedExactly | src/bookings/bookings.service.ts:336-352 | A refund event ends an open cancellation, pending or failed, if and only if it names its payment, full amount and currency with a refund id of its own: seats back unless they already are, payment refunded; a mismatch is refused, and any other status uses it up. |
| BookingAnswers.ExpireExactly | src/bookings/bookings.service.ts:366-383 | A round of the expiry job ends a booking and returns its seats if and only if it is pending and its hold has run out. |
| BookingAnswers.FinalizeExactly | src/bookings/bookings.service.ts:564-592 | A refund report finishes an open cancellation if and only if it is for the full amount and its refund id is free, with seats back once and the payment refunded. |
| BookingAnswers.RefundExactly | src/bookings/bookings.service.ts:518-563 | What each answer of the provider to a refund request writes, field by field: failed, pending, granted, no answer, or the refund id of another payment. |
| BookingAnswers.InspectExactly | src/bookings/bookings.service.ts:449-464 | What each answer to an inspection writes: the full refund ends the cancellation and is counted, a failed one is noted on the payment, anything else leaves every row. |
| BookingAnswers.InspectAlone | src/bookings/bookings.service.ts:449-464 | Run without rivals, the machine's inspection steps leave the rows of the uninterrupted round. |
| BookingAnswers.CheckoutExactly | src/bookings/bookings.service.ts:467-517 | The owner gets through if and only if nothing is to pay, the checkout is open already, or the provider answers with ids nobody else has; then the session is stored, and otherwise nothing. |
| BookingAnswers.SelectionsExactly | src/bookings/bookings.service.ts:358-443 | The three jobs select exactly the run-out holds, the unopened checkouts of running holds, and the open cancellations with a pending or failed refund, up to the limit. |
| RowsKept.CreateKeeps | src/bookings/bookings.service.ts:139-198 | Creating a booking keeps every row-level invariant: seat accounts, snapshots, statuses and payments. |
| RowsKept.ReleaseKeeps | src/bookings/bookings.service.ts:593-625 | Giving seats back keeps every row-level invariant. |
| RowsKept.ReleaseCommits | src/bookings/bookings.service.ts:599-624 | In a state of the row invariant a release always commits, and returns seats exactly when the booking had not given them back. |
| RowsKept.UpdateDepartureKeeps | src/tours/departures.service.ts:94-101 | Moving, resizing or deactivating a departure keeps seat accounts and the snapshots of unreleased bookings. |
| RowsKept.DeleteDepartureKeeps | src/tours/departures.service.ts:127-137 | Deleting a departure is refused while seats are reserved, which keeps every snapshot. |
| RowsKept.UpdateTourKeeps | src/tours/tours.service.ts:122-138 | Lowering a tour's capacity is refused below its departures' inventory, which keeps every departure within its tour. |
| RowsKept.DeleteTourKeeps | src/tours/tours.service.ts:173-192 | Deleting a tour, refused while seats are reserved, keeps every row-level invariant: no unreleased booking is left on a retired departure. |
| Seats.ReservedCovers | src/bookings/bookings.service.ts:606-614 | An unreleased booking's quantity is covered by its departure's reserved spots. |
| Seats.SeatsReleased | src/bookings/bookings.service.ts:608-624 | Moving a released booking's quantity from reserved to available keeps all seat accounts. |
| Seats.SeatsBooked | src/bookings/bookings.service.ts:150-157 | Moving a new booking's quantity from available to reserved keeps all seat accounts. |
| CatalogTx.RepresentedBounds | src/tours/tours.service.ts:122-131 | The capacity floor is at least every live departure's inventory. |
| CatalogTx.RepresentedAttained | src/tours/tours.service.ts:122-131 | The capacity floor is zero or the inventory of some live departure. |
| Timeline.EveryStepIsAMove | src/bookings/bookings.service.ts:251-625 | Whatever the step, a booking row makes one of six moves or none: confirm, expire, cancel free before the cutoff, request a refund before the cutoff, finish a refund, fail a refund; each from its own statuses and touching only its own fields. |
| Timeline.PricesStand | src/bookings/bookings.service.ts:142-178 | On every run each booking's stored amounts are exactly the price of its stored unit price, percentage and quantity, total plus discount is the subtotal, and it has a hold exactly when it costs something. |
| Timeline.DatesStand | src/bookings/bookings.service.ts:255-271 | On every run each booking's dates are set exactly when its status says so, come in order, lie not ahead of the clock, and no cancellation was accepted after the cutoff. |
| Timeline.MoveKeepsDates | src/bookings/bookings.service.ts:593-625 | Each of those moves keeps prices and dates right. |
| Timeline.NewRowOk | src/bookings/bookings.service.ts:142-178 | A new booking snapshots its tour's price and percentage, is priced by them, and holds for the configured time. |
| Webhooks.DeliveryTheorem | src/bookings/bookings.service.ts:284-356 | From any reachable state, any list of deliveries and other steps ends in the state of the list reduced to the first accepted delivery of each event id; the reduced list repeats no id and no event is lost. |
| Webhooks.ReducedRunsTheSame | src/bookings/bookings.service.ts:286-296 | Dropping rejected and repeated deliveries from a run changes nothing of the state it reaches. |
| Pricing.DiscountWithinUnit | src/bookings/bookings.service.ts:673-687 | For a percentage up to 100 the discount is between nothing and the unit price, and the total between nothing and the subtotal. |
| Pricing.DiscountAccounted | src/bookings/bookings.service.ts:673-687 | Total plus discount on every seat is exactly the subtotal. |
| Pricing.RoundingError | src/bookings/bookings.service.ts:678-685 | The total is within half a cent per seat of the exact discounted price. |
| Pricing.DiscountMonotone | src/bookings/bookings.service.ts:678-679 | A dearer tour or a larger percentage never lowers the discount. |
| Pricing.FreeExactly | src/bookings/bookings.service.ts:142-149 | A booking takes the free path exactly when the exact discounted unit price is at most half a cent. |
| Database.Tables.Rollback | src/database/database-unit-of-work.ts:9-11 | A transaction that throws leaves the tables as they were when it began. |
| BookingsService.Bookings.Create | src/bookings/bookings.service.ts:70-209 | Written statement by statement, create accepts an unused key if and only if the request may be booked, and then writes exactly the new row, its seats, its payment and its key; otherwise it reports the transaction's error and changes nothing. |
| BookingsService.Bookings.Release | src/bookings/bookings.service.ts:593-625 | Under the row invariant a release always succeeds, returns seats exactly when they were still held, keeps the invariant, and only moves seats from reserved to available of one departure. |
| BookingsService.Bookings.Cancel | src/bookings/bookings.service.ts:251-279 | The owner's confirmed booking is accepted if and only if the cutoff has not passed, closed ones answer again, pending and expired ones are refused; an accepted call leaves the stated rows and a refused one none; spots per departure and the row invariant stay. |
| BookingsService.Bookings.ProcessEvent | src/bookings/bookings.service.ts:284-356 | With its event row inserted first and rolled back on a throw, the handler is the delivery transaction: an acknowledged event is remembered, returned seats are reported exactly when the release mark appears, spots per departure and the row invariant stay. |
| BookingsService.Bookings.ExpireDue | src/bookings/bookings.service.ts:358-385 | The expiry job's loop selects at most the limit of due holds and ends in the rows, the count and the early stop of the batch function. |
| BookingsService.Bookings.FinalizeRefund | src/bookings/bookings.service.ts:564-592 | Finalizing the refund of a bought booking keeps the row invariant and leaves its seats returned, reporting their return exactly when they were still held. |
| BookingsService.Bookings.OpenCheckout | src/bookings/bookings.service.ts:467-517 | A call that answers leaves its customer with an open checkout and a payment address unless nothing is to pay; a call that throws changes nothing; no booking, no seat and no other payment moves. |
| BookingsService.Bookings.RecoverCheckouts | src/bookings/bookings.service.ts:407-430 | The recovery loop keeps going after a failure and ends in the rows and the count that BatchJobs.RecoveryOpensExactly characterises. |
| BookingsService.Bookings.RefundBooking | src/bookings/bookings.service.ts:518-563 | For an open cancellation the row invariant stays, no other booking moves, the booking stays cancelled or open, and seats move only if it ends cancelled. |
| BookingsService.Bookings.ReconcileRefunds | src/bookings/bookings.service.ts:432-465 | The reconciliation loop ends in the rows and the count that BatchJobs.ReconcileSettlesExactly characterises. |
| Jobs.DueExactly | src/bookings/bookings.service.ts:359-363 | The expiry query returns exactly the pending bookings whose hold is due, once each, in table order. |
| Jobs.ExpireAllExactly | src/bookings/bookings.service.ts:365-383 | Every selected hold expires, is counted once, and no other booking moves. |
| Jobs.ExpireDueDrains | src/bookings/bookings.service.ts:358-385 | With room in the batch no due hold is left, and the job changes everything it inspected. |
| Jobs.OpenCheckoutAlone | src/bookings/bookings.service.ts:467-517 | Run without rivals, the machine's checkout steps leave the rows of the uninterrupted openCheckout. |
| Jobs.RefundAlone | src/bookings/bookings.service.ts:518-563 | Run without rivals, the machine's refund steps leave the rows of the uninterrupted refund, whatever the provider answers and whether or not there is a provider payment. |
| Jobs.RefundSettles | src/bookings/bookings.service.ts:546-584 | For any open cancellation under the row invariant: a refund that succeeds at once with an unused id ends it cancelled, released and refunded; a failed call or a clashing id marks booking and payment failed; any other answer leaves the booking; no other booking or payment moves. |
| Jobs.RefundHasPayment | src/bookings/bookings.service.ts:519-532 | Under the row invariant an open cancellation always has a payment with the provider's payment id, for the booking's full amount. |
| BatchJobs.UnsettledExactly | src/bookings/bookings.service.ts:432-443 | The reconciliation query lists exactly the unresolved cancellations, each once in table order, with the refund id its payment carries. |
| BatchJobs.ReconcileSettlesExactly | src/bookings/bookings.service.ts:444-464 | From every reachable state the batch counts exactly the selected bookings whose inspection reports the full refund, refunds their payments, and cancels and releases those whose seats are not back; a never requested refund is requested; every other booking stays. |
| BatchJobs.ReconcileAllKeeps | src/bookings/bookings.service.ts:444-464 | Whatever the provider answers, the batch keeps the row invariant and the refund ids apart and moves only selected bookings. |
| BatchJobs.RunKeepsApart | src/database/schema/bookings.ts:171-173 | On every run no two payments carry the same refund id, because each write checks the unique index. |
| BatchJobs.RecoverablesExactly | src/bookings/bookings.service.ts:407-420 | The recovery query lists exactly the pending bookings with an unopened checkout and a running hold, once each in table order. |
| BatchJobs.RecoveryOpensExactly | src/bookings/bookings.service.ts:421-429 | From every reachable state the recovery opens exactly the selected checkouts whose answer clashes with no stored one, counts them, and leaves every booking and every other payment. |
| Gateway.FakeIsPossible | src/payments/fake-payment-gateway.ts:19-31 | What the fake provider answers is a possible answer of the provider the machine assumes, so the theorems cover it. |
| Gateway.FakePaymentGateway.CreateCheckout | src/payments/fake-payment-gateway.ts:19-31 | A repeated key answers the same session and records nothing new; the failure switch answers nothing and changes nothing. |
| CatalogServices.Departures.Create | src/tours/departures.service.ts:54-80 | A departure is inserted if and only if it lies ahead, its tour is live and has room for it and no departure of the tour, deleted or not, starts then; no booking and no reserved spot is touched and the row invariant stays. |
| CatalogServices.Departures.Update | src/tours/departures.service.ts:82-122 | Accepted if and only if the change lies ahead, fits the tour, has its instant to itself, and neither moves nor deactivates a reserved departure; each of start, available and active becomes the patch's value where given and stays otherwise, and nothing else changes. |
| CatalogServices.Departures.Delete | src/tours/departures.service.ts:124-140 | A departure is retired if and only if it is live and nobody holds a seat of it; nothing else changes and the row invariant stays. |
| CatalogServices.Tours.Update | src/tours/tours.service.ts:119-144 | The loop over the departure rows finds the capacity floor. Accepted if and only if the values are in range and the size holds every live departure; each of maximum, price, discount and active becomes the patch's value where given and stays otherwise; rating, deletion, other tours, bookings and reserved spots stand. |
| CatalogServices.Tours.Delete | src/tours/tours.service.ts:173-192 | A tour is retired if and only if it is live, nobody holds a seat of its live departures and its images could be removed; the loop retires exactly its live departures with it. |
| CatalogAnswers.NextBookingPaysPatched | src/tours/tours.service.ts:473-494 | A booking made next on a patched tour snapshots the patched price and percentage and fits the patched size. |
| CatalogAnswers.UpdateTourExactly | src/tours/tours.service.ts:119-144 | The same statement of the update-tour transaction, its floor being the inventory of some live departure or nothing. |
| CatalogServices.Reviews.Create | src/reviews/reviews.service.ts:67-109 | A review is stored, with exactly the submitted rating, if and only if it has one to five stars, the tour is live, the author has a confirmed past booking of it and has not reviewed it; only the tour's rating changes besides. |
| CatalogServices.Reviews.Update | src/reviews/reviews.service.ts:111-129 | The author's review of this tour, and no other, takes the new rating; only the tour's rating changes besides. |
| CatalogServices.Reviews.Delete | src/reviews/reviews.service.ts:131-139 | The author's review goes, every other stays in place, and only the tour's rating changes besides. |
| ReviewsKept.CreateReviewKeeps | src/reviews/reviews.service.ts:67-98 | A new review keeps every review backed, one per user and tour, and the aggregates equal to the rows. |
| ReviewsKept.UpdateReviewKeeps | src/reviews/reviews.service.ts:111-127 | An update keeps backing, uniqueness and aggregates. |
| ReviewsKept.DeleteReviewKeeps | src/reviews/reviews.service.ts:131-138 | A deletion keeps backing, uniqueness and aggregates. |
| ReviewTx.AverageBounds | src/reviews/reviews.service.ts:188-196 | The half-up two-decimal average of ratings from 1 to 5 lies between 1.00 and 5.00. |
| OutboxSafety.AtMostOneEffect | src/platform/jobs/job-worker.lifecycle.ts:92-105 | Over any crashes, redeliveries, replays and rollbacks at most one effect commits per job name and key, and the ledger holds exactly those. |
| OutboxSafety.SendsBounded | src/platform/jobs/job-worker.lifecycle.ts:92-105 | A key is sent at most once more than the number of worker transactions lost after the mail went out, and exactly that often once its effect is in the ledger. |
| OutboxSafety.NoSendWithoutRow | src/platform/jobs/transactional-outbox.ts:11-23 | No mail goes out for a name and key without a committed outbox row. |
| OutboxHistory.RowsAreEnqueued | src/platform/jobs/transactional-outbox.ts:11-23 | On every run each outbox row was made by an enqueue of its name, key and mail that committed. |
| OutboxHistory.RolledBackNeverSends | src/platform/jobs/transactional-outbox.ts:11-23 | On every run on which all enqueues of a name and key roll back, no row and no job of it exists, no worker holds it, it is never sent, no effect of it commits, and every delivered mail is another sent job's. |
| OutboxSafety.MarkedMeansAdded | src/platform/jobs/outbox-relay.ts:65-89 | A row is marked dispatched only after its job with its payload was added to the queue, and its attempt count is the number of committed failed dispatches. |
| OutboxSafety.RelaysNeverShare | src/platform/jobs/outbox-relay.ts:52-63 | On every run no two relays hold the same row, and none holds a marked one. |
| OutboxHistory.OneMailPerJob | src/platform/jobs/job-worker.lifecycle.ts:92-105 | Every job of a name and key carries the mail of its one row, and once anything was sent for it the provider holds that mail's key exactly once. |
| OutboxHistory.OneMailPerNameAndKey | src/identity/auth-email-outbox.ts:21-30 | With mails keyed as the identity module keys them, the provider holds a mail under a key if and only if the mail job of that name and key was sent, holds it once, and it is the mail of that job's row. |
| OutboxSafety.EffectMeansDelivered | src/platform/jobs/job-worker.lifecycle.ts:92-105 | Every committed effect has its mail delivered. |
| OutboxSafety.NoRowIsLost | src/platform/jobs/outbox-relay.ts:49-93 | Through any run a row keeps its identity, is marked at most once for good, and its attempts only grow. |
| OutboxSafety.StepKeeps | src/platform/jobs/outbox-relay.ts:49-93 | Every step of relays, queue, workers, crashes and redeliveries keeps the outbox invariant. |
| Outbox.ClaimIsFirst | src/platform/jobs/outbox-relay.ts:52-63 | A claim is a set of distinct due unlocked rows, as many as fit the batch, in order of availability and creation, and no due row left out comes strictly before a claimed one. |
| Outbox.ClaimIsFirstWaiting | src/platform/jobs/outbox-relay.ts:52-63 | On the rows' fields: a claim has distinct undispatched due unlocked rows, earliest by availability and then creation, as many as the batch or all there are, and nobody earlier is left out. |
| Outbox.MarkExactly | src/platform/jobs/outbox-relay.ts:65-84 | Marking changes exactly the claimed rows: a success marks, a failure counts, everything else stays. |
| Relay.OutboxRelay.Enqueue | src/platform/jobs/transactional-outbox.ts:11-23 | A row with the given mail, due time and insertion time is appended if and only if no row has the name and key, and the answer says whether. |
| Relay.OutboxRelay.RunOnce | src/platform/jobs/outbox-relay.ts:49-93 | Exactly the first waiting rows are claimed; each is marked if its dispatch went through and counted if not, no other row changes; the queue keeps what it had and gains only jobs of dispatched rows with those rows' mail; the answer is their number. |
| Relay.RunOnceProgress | src/platform/jobs/outbox-relay.ts:49-93 | Without failures or rivals one iteration marks the smaller of batch size and due rows, and returns that number. |
| Relay.DrainsInCeil | src/platform/jobs/outbox-relay.ts:49-93 | Repeated iterations drain n due rows in exactly n over batch size iterations, rounded up, and in no fewer. |
| Relay.RunOnceIsARun | src/platform/jobs/outbox-relay.ts:49-93 | Without rivals, claim, dispatches and commit of the machine leave the rows the loop leaves. |
| Worker.JobWorker.Process | src/platform/jobs/job-worker.lifecycle.ts:73-105 | A booking job name runs its batch and touches neither ledger nor mail; the mail job claims its ledger row, sends, and commits or rolls back; any other name is refused. |
| Worker.ProcessIsARun | src/platform/jobs/job-worker.lifecycle.ts:92-105 | Run alone, the machine's worker steps leave the ledger and the inbox that process leaves. |
| Limiter.RedisThrottlerStorage.Increment | src/rate-limit/redis-throttler.storage.ts:7-22 | The script statement by statement leaves the keys and gives the answer of the specification functions. |
| Limiter.WindowBound | src/rate-limit/redis-throttler.storage.ts:8-13 | On every hit trace at most limit hits are admitted per counter window. |
| Limiter.SpanBound | src/rate-limit/redis-throttler.storage.ts:7-22 | On every hit trace any half-open span of length ttl admits at most twice the limit less one. |
| Limiter.SpanBoundMet | src/rate-limit/redis-throttler.storage.ts:7-22 | For every policy with a positive limit and a ttl of at least two, one hit, limit less one hits just before the window ends and limit hits after it attain the bound of twice the limit less one. |
| Limiter.SpanBoundMetExactly | src/rate-limit/redis-throttler.storage.ts:7-22 | Some trace attains the bound if and only if the window is longer than one instant or the limit is one. |
| Limiter.BlockedUntilExpiry | src/rate-limit/redis-throttler.storage.ts:13-20 | Every hit before a block key expires is refused and does not move the expiry. |
| Limiter.RefusedExactly | src/rate-limit/redis-throttler.storage.ts:13-20 | A hit is refused exactly when it exceeds the limit of its window or meets a live block, and starts a block exactly when it exceeds the limit and meets none. |
| Limiter.HitsAreCounted | src/rate-limit/redis-throttler.storage.ts:7-22 | On every trace a hit reports how many hits its window has seen, itself included, and the end of that window, which the first of them opened. |
| MediaSafety.PositionsAlwaysDense | src/tours/media.service.ts:218-326 | Over any interleaving of uploads, failures, crashes and deletions a tour's visible images hold exactly the positions 1..n with n at most ten, no two alike. |
| MediaSafety.ActiveImagesAreStored | src/tours/media.service.ts:60-136 | Whatever puts and deletes fail, a published image has all three of its objects stored. |
| MediaSafety.PublishShows | src/tours/media.service.ts:106-114 | Publishing an upload that has put everything makes each of its images active at its position, with its three objects stored. |
| MediaSafety.FinishRemoves | src/tours/media.service.ts:155-165 | Finishing a deletion removes the row of its image and no other. |
| MediaSafety.EveryObjectHasItsRow | src/storage/fake-object-storage.ts:10-26 | With a store whose failed puts store nothing, as the fake one, every stored object belongs to an existing row, under any failures and any interleaving. |
| MediaSafety.OrphansWereLost | src/tours/media.service.ts:73-104 | With any store, an object without a row was stored by a put that reported failure. |
| MediaSafety.OrphansAppearExactly | src/tours/media.service.ts:73-89 | From a state without orphans one appears in a step exactly when an upload whose undo has finished withdraws its rows while something is still stored under its images. |
| MediaSafety.LyingPutLeavesOrphan | src/tours/media.service.ts:73-89 | A concrete run of one upload, one put that fails after storing and the withdrawal leaves an object without a row. |
| MediaSafety.StepKeeps | src/tours/media.service.ts:52-176 | Every step of uploads and deletions keeps rows, numbering and stored objects in agreement. |
| MediaSafety.UploadsApart | src/tours/media.service.ts:57-60 | Two unfinished uploads share no image. |
| MediaSafety.UploadsKeepClear | src/tours/media.service.ts:263-265 | No image is being uploaded and deleted at once. |
| Media.ReserveKeeps | src/tours/media.service.ts:218-251 | A reservation continues the numbering and never exceeds ten images. |
| MediaAnswers.ReserveExactly | src/tours/media.service.ts:218-251 | Images are reserved if and only if the tour is known and has room for them among ten; they follow the counted ones in the order given, pending, and every other row stands. |
| Media.MarkRenumbers | src/tours/media.service.ts:266-273 | Hiding an active image leaves the survivors exactly as one renumbering would, in their old order. |
| Media.MarkKeeps | src/tours/media.service.ts:253-276 | Marking an image for deletion keeps every tour's numbering. |
| MediaAnswers.MarkExactly | src/tours/media.service.ts:253-276 | Row by row: an active image is hidden and exactly those above it on its tour move down by one; a hidden one stays; a pending one, a stranger's and an unknown one are refused. |
| Media.RemovePendingRenumbers | src/tours/media.service.ts:278-291 | Withdrawing pending images, gaps closed one by one from the highest, leaves the survivors exactly as one renumbering would, in their old order. |
| Media.RemovePendingKeeps | src/tours/media.service.ts:278-291 | Withdrawing an upload's rows keeps every tour's numbering and changes nothing else but positions. |
| MediaAnswers.WithdrawExactly | src/tours/media.service.ts:278-291 | Row by row: the given rows go and each survivor of the tour moves down by the number of them that stood below it. |
| Media.WithdrawUndoesReserve | src/tours/media.service.ts:278-291 | Withdrawing a reservation right after making it restores every row of every tour. |
| Media.ActivateKeeps | src/tours/media.service.ts:106-114 | Publishing keeps every tour's numbering. |
| Media.DeleteRowKeeps | src/tours/media.service.ts:157-165 | Deleting a hidden row moves no position. |
| Positions.CloseAllCloses | src/tours/media.service.ts:287-289 | Closing several gaps from the highest down ends in a dense numbering in the old order. |
| Positions.PartlyShiftedInjective | src/tours/media.service.ts:318-325 | After every single update of the closing loop no two images share a position. |
| Positions.ClosingIsRenumbering | src/tours/media.service.ts:306-326 | Whatever closes all gaps in order ends in the one-pass renumbering. |
| MediaTables.ImageTable.SetPosition | src/database/schema/tours.ts:190-202 | An update of a position is accepted exactly if the unique index has room and the check allows it, and otherwise changes nothing. |
| MediaTables.ImageTable.CompactPositions | src/tours/media.service.ts:306-326 | The loop moves every visible row above the removed position down one at a time; no single update is rejected by the unique index, and the result is the shifted table. |
| MediaTables.ImageTable.Reserve | src/tours/media.service.ts:218-251 | reserve inserts one pending row per image after the existing ones, or refuses an unknown tour or an eleventh image without a change. |
| MediaTables.ImageTable.MarkPendingDelete | src/tours/media.service.ts:253-276 | The method is the mark transaction, errors included, with its compaction never rejected. |
| MediaTables.ImageTable.RemovePendingUploads | src/tours/media.service.ts:278-291 | Deleting the rows and closing their gaps in descending order is the withdrawal transaction, no update rejected. |
| MediaTables.Ordered | src/tours/media.service.ts:311-317 | The ordered query lists each row once, by ascending position. |
| MediaService.Service.Upload | src/tours/media.service.ts:52-136 | An upload publishes every image with its three objects and their contents, or reports why not: too many or no files, an unknown tour, no room among ten, or a failed put; a failed put with working deletes leaves table and store exactly as they were. |
| MediaService.Service.Compensate | src/tours/media.service.ts:293-304 | Compensation deletes all it was given, last first, or reports the failure with exactly the last ones deleted. |
| MediaService.Service.Delete | src/tours/media.service.ts:138-176 | A deletion hides the image, removes its three objects in order and then its row; if a delete fails the hidden row stays and exactly the objects before it are gone. |
| MediaService.PutAllStores | src/tours/media.service.ts:63-72 | After an upload each rendition is found under its own key with its own bytes. |
| MediaService.UndoneStore | src/tours/media.service.ts:293-296 | Deleting what was put under unused keys brings the store back. |
| MediaService.PutsFollowTheMachine | src/tours/media.service.ts:63-72 | The service puts the keys the storage machine expects, in its order. |
| ObjectStorage.FakeObjectStorage.Put | src/storage/fake-object-storage.ts:10-17 | The configured put fails and stores nothing; every other put replaces the object. |
| ObjectStorage.FakeObjectStorage.Delete | src/storage/fake-object-storage.ts:19-26 | The configured delete fails and removes nothing; deleting a missing object succeeds. |
| MediaCleanup.Renumber | scripts/media/cleanup.ts:91-110 | The script's loop puts every visible row at its place in one pass; no single update is rejected by the unique index. |
| MediaCleanup.GapClosingIsOnePass | scripts/media/cleanup.ts:91-110 | The service's gap closing and the script's single pass over the same surviving rows end in the very same table. |
| TeamSafety.RolesAgreeWithAssignments | src/tours/tours.service.ts:351-365 | In every reachable state a live assignment names an existing user who has exactly its role, on a live tour. |
| TeamSafety.TeamsAreWhole | src/tours/tours.service.ts:342-376 | In every reachable state a live tour has exactly one live lead and at most four supporters, all different people. |
| TeamSafety.DeletedToursAreUnstaffed | src/tours/tours.service.ts:183-188 | In every reachable state a deleted tour has no live assignment. |
| TeamSafety.SlugsNeverClash | src/tours/tours.service.ts:102-115 | In every reachable state no two tours share a slug, deleted or not. |
| TeamSafety.ServingFixesRole | src/users/users.service.ts:85-96 | While a user serves on a tour the only role they can be given is the one they have. |
| TeamSafety.DeletableExactly | src/users/users.service.ts:123-158 | A user can be deleted exactly when no assignment of any age, no booking and no review names them. |
| TeamSafety.ServedOnceStaysForever | src/database/schema/tours.ts:104-106 | Whoever was ever assigned to a tour exists after every further run: ended assignments restrict the deletion for good. |
| TeamSafety.FirstFreeIsFirst | src/tours/tours.service.ts:102-116 | The slug loop takes the first free of the hundred candidates and gives up only when all are taken. |
| TeamSafety.FewToursNeverExhaust | src/tours/tours.service.ts:102-116 | With fewer than a hundred tours the loop always finds a slug, because the candidates differ. |
| TeamSafety.CandidatesDiffer | src/tours/tours.service.ts:103 | Two candidate slugs of one base are never equal. |
| Teams.StepKeeps | src/users/users.service.ts:74-170 | Every tour, team and user step keeps the team invariant. |
| Teams.ReplaceTeamKeeps | src/tours/tours.service.ts:342-376 | Replacing a team keeps the invariant of all tours and gives this one a whole team. |
| TeamServices.TeamTables.ReplaceTeam | src/tours/tours.service.ts:342-376 | replaceTeam as statements, its duplicate test by set size, is the specified replacement or changes nothing. |
| TeamAnswers.ReplaceExactly | src/tours/tours.service.ts:342-376 | A live tour's team is replaced if and only if it has at most four guides, all different from each other and the lead, each with the role; its assignments end and the new ones follow, the lead first. |
| TeamServices.TeamTables.Create | src/tours/tours.service.ts:96-117 | The slug loop goes on after a lost race, whichever candidates rivals take, ends as specified, and keeps the team invariant. |
| TeamSafety.RacedCreate | src/tours/tours.service.ts:102-116 | Whatever rivals do between the look and the insert, a successful create adds its tour last under one of the hundred candidates, and exhaustion means that each of them is taken. |
| TeamSafety.RacedCreateKeeps | src/tours/tours.service.ts:102-116 | Whatever rivals do, the loop keeps slugs apart and every team whole. |
| TeamSafety.AloneTakesFirstFree | src/tours/tours.service.ts:102-116 | Without rivals the loop is one create under the first free candidate. |
| TeamServices.TeamTables.CreateWithSlug | src/tours/tours.service.ts:261-287 | A refused team takes the inserted tour back out; the team invariant stays. |
| TeamAnswers.CreateWithSlugExactly | src/tours/tours.service.ts:261-287 | A tour is inserted with its team if and only if no tour, deleted or not, has the slug and the team may serve. |
| TeamAnswers.CandidatesAre | src/tours/tours.service.ts:102-103 | The candidates are the base and the base with the decimal numbers 2 to 100. |
| TeamServices.TeamTables.Delete | src/tours/tours.service.ts:173-188 | After deleting a tour no live assignment names it, and the team invariant stays. |
| TeamAnswers.DeleteTourExactly | src/tours/tours.service.ts:173-188 | A live tour is deleted if and only if nothing blocks it; exactly its assignments end. |
| TeamServices.TeamTables.ChangeRole | src/users/users.service.ts:74-102 | A change is accepted only if every live assignment of the user has the new role, and it keeps the team invariant; errors change nothing. |
| TeamAnswers.ChangeRoleExactly | src/users/users.service.ts:74-102 | A role is given if and only if actor and target differ, the target exists and every place it holds has that role; nobody else's changes. |
| TeamServices.TeamTables.DeleteUser | src/users/users.service.ts:117-159 | A user is deleted only if no assignment of any age, no booking and no review names them, and the deletion keeps the team invariant; errors change nothing. |
| TeamAnswers.DeleteUserExactly | src/users/users.service.ts:117-159 | A user is deleted if and only if nobody deletes themselves as an administrator and no assignment, booking or review names the user; otherwise the first reason is answered. |
| TeamServices.DistinctBySize | src/tours/tours.service.ts:347-350 | A list has no duplicates exactly when its set is as large as it is. |
| AnalyticsFacts.ReportsAgree | src/analytics/analytics.service.ts:87-177 | On every run monthly travelers fit the reserved spots and those fit the capacity, and for bookings, travelers and revenue alike the year's total is the plan plus the confirmed bookings on inactive tours. |
| StatisticsFacts.StatisticsAreSound | src/analytics/analytics.service.ts:87-129 | On every run the report counts no more tours than departures, some tour exactly when some departure, no more travelers than capacity, an average exactly when there are bookings, and agrees with the full ranking of the period in bookings, travelers and revenue. |
| StatisticsFacts.StatisticsReportThePlan | src/analytics/analytics.service.ts:87-177 | On every run the report over a year equals the plan plus the confirmed bookings on inactive tours, in bookings, travelers and revenue. |
| ReportFacts.StatisticsReportTruly | src/analytics/analytics.service.ts:87-129 | On every run, for a period of at most 366 days and no other: tours, departures and seats of the period, the number of its confirmed bookings, the sum of their quantities, the sum of their payments' amounts, and the mean payment within half a cent. |
| ReportFacts.PlanReportsTruly | src/analytics/analytics.service.ts:131-177 | On every run a month's row has its shown departures and their seats, and the number, quantities and payments of their confirmed bookings; the plan lists the months with a departure, in order. |
| ReportFacts.RankingReportsTruly | src/analytics/analytics.service.ts:49-85 | On every run the ranking lists exactly the tours with a confirmed booking in the period, each with the number, quantities and payments of these, by money, travelers, rating with unrated last, and identifier; a limit keeps the top. |
| StatisticsFacts.PeriodByDeparture | src/analytics/analytics.service.ts:91-108 | The period's bookings, selected by their snapshotted start, are those of the period's departures: the two selections never differ. |
| StatisticsFacts.ToursAndDepartures | src/analytics/analytics.service.ts:102-103 | Distinct tours are at most the departures, and none exactly if there is no departure. |
| AnalyticsFacts.PlanCountsOnce | src/analytics/analytics.service.ts:136-161 | Over the whole plan every confirmed booking of a planned departure counts exactly once. |
| Analytics.MonthCountsOnce | src/analytics/analytics.service.ts:143-160 | A month's pre-aggregated left join counts every confirmed booking of its planned departures exactly once. |
| AnalyticsFacts.MonthFits | src/analytics/analytics.service.ts:151-160 | In a good state travelers, reserved spots and capacity of a month are in ascending order. |
| AnalyticsFacts.StatisticsAccountForPlan | src/analytics/analytics.service.ts:87-177 | For bookings, travelers and revenue alike, statistics over the year are the plan plus the bookings on inactive tours. |
| Analytics.MeanCents | src/analytics/analytics.service.ts:109-110 | The average booking value is null exactly without bookings and otherwise within half a cent of the mean. |
| Rankings.RankingIsRight | src/analytics/analytics.service.ts:53-66 | The full ranking lists exactly the tours with a confirmed booking in the period, each with its own totals, strictly ordered by revenue, travelers, rating with unrated last, and identifier. |
| Rankings.LimitShowsTheTop | src/analytics/analytics.service.ts:63-67 | Whoever the limit leaves out ranks behind everyone it shows. |
| Rankings.RankingsSumToStatistics | src/analytics/analytics.service.ts:49-113 | On every run the full ranking and the statistics of the same period add up to the same bookings, travelers and revenue. |

## Left out

- Payment status against booking status: the code does not relate them (a replayed create rewrites
  `paid` to `checkout_open`, a late refund answer can overwrite `refunded`), so nothing is claimed.
- Confirmation before `holdExpiresAt`: the code does not promise it, a late webhook confirms as long as
  the expiry job has not come first.
- Traveler rows, purchaser and tour name snapshots, `lastErrorCode`, `updatedAt`, audit rows and text
  redaction: written and never read by any guard.
- Hashes of keys, requests and job names: taken as injective, so the model compares keys, requests and
  names themselves.
- Floating point in the discount: percentages are exact hundredths of a percent, rounded half-up as
  `docs/02_DOMAIN.md:51` states.
- BookingsService.Bookings.OpenCheckout: does not model interference between its statements; the
  machine's flights do, and `Jobs.OpenCheckoutAlone` relates the two.
- BookingsService.Bookings.RefundBooking: does not model interference between its statements; the
  machine's flights do, and `Jobs.RefundAlone` relates the two.
- MediaService.Service.Upload: runs without rivals; `MediaStorage` models the interleavings.
- Refunds.ReachLostExactly: is about one step; that a run gets there is shown by a concrete one.
- Relay.RunOnceProgress: says nothing about runs with failures; a full batch that always fails would be
  claimed again and again.
- BookingsService.Bookings.ReconcileRefunds: selects in table order, where the query leaves the order open;
  `BatchJobs.ReconcileAllKeeps` holds for any order of the selected rows.
- BookingsService.Bookings.RecoverCheckouts: selects in table order, where the query leaves the order open.
- Order of rows without `ORDER BY` elsewhere (the expiry batch): table order, which a limit makes visible.
- Tour deletion in the media machine: it removes objects inside a transaction that may roll back and
  can race an upload. It is part of the booking and team machines, where whether the images could be
  removed is a parameter.
- The cleanup script's selection, deletions and concurrency with the service: it takes no tour lock.
- Stripe, R2, BullMQ, Redis client and image processing internals: environment steps that succeed, fail
  or repeat.
- Deadlocks, isolation levels and session time zones: transactions serialize on the rows they lock, and
  the month of an instant is a parameter of the plan.
- Controllers, request validation beyond the limits the services rely on, response envelopes,
  authentication, health checks, configuration, seeds and migrations: wiring.
- Listing, detail and slug rendering of names: read-only.
