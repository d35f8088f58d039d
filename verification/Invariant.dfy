/** What every reachable state of the machine satisfies, one named clause at a time. */
module Invariant {
  import opened Rows
  import opened Seats
  import opened BookingTx
  import opened ReviewTx
  import opened Machine

  /** The states a paid booking can only enter by asking for its money back. */
  predicate Refunding(status: Status) {
    status == CancellationPending || status == CancellationFailed || status == Cancelled
  }

  predicate Purchased(status: Status) {
    status == Confirmed || Refunding(status)
  }

  ghost predicate PhaseOk(row: Booking) {
    && (row.status == PendingPayment || row.status == Confirmed || row.status == CancellationPending ==>
          row.releasedAt.None?)
    && (row.status == Expired || row.status == Cancelled ==> row.releasedAt.Some?)
    && (row.totalCents == 0 ==> row.status == Confirmed || row.status == Cancelled)
  }

  ghost predicate PhasesOk(bookings: seq<Booking>) {
    forall b :: 0 <= b < |bookings| ==> PhaseOk(bookings[b])
  }

  /** Exactly the bookings that cost something have a payment row, for exactly what they cost; once such a
      booking is bought its payment carries the provider's payment identifier.
    */
  ghost predicate PaymentsOk(db: Db) {
    && (forall b :: b in db.payments ==>
          && b < |db.bookings|
          && db.payments[b].amountCents == db.bookings[b].totalCents
          && (Purchased(db.bookings[b].status) ==> db.payments[b].paymentId.Some?))
    && (forall b :: 0 <= b < |db.bookings| ==> (b in db.payments <==> db.bookings[b].totalCents > 0))
  }

  ghost predicate RowsOk(db: Db) {
    && SeatsOk(db.tours, db.departures, db.bookings)
    && SnapshotsOk(db.departures, db.bookings)
    && PhasesOk(db.bookings)
    && PaymentsOk(db)
    && (forall t :: 0 <= t < |db.tours| ==> db.tours[t].discount < 10000)
  }

  // --- operations in flight ---

  ghost predicate InRefund(bookings: seq<Booking>, b: nat) {
    b < |bookings| && bookings[b].totalCents > 0 && Refunding(bookings[b].status)
  }

  ghost predicate FlightOk(db: Db, sessions: map<nat, Session>, refunds: set<RefundFact>, f: Flight) {
    match f
    case CheckoutOwned(_, b) => b < |db.bookings|
    case CheckoutLoad(b) => b in db.payments
    case CheckoutCall(b) => b in db.payments
    case CheckoutWrite(b, session) => b in db.payments && b in sessions && sessions[b] == session
    case RefundCall(b, _, amount) => InRefund(db.bookings, b) && amount == db.bookings[b].totalCents
    case RefundWrite(b, _, outcome, amount) =>
      && InRefund(db.bookings, b) && amount == db.bookings[b].totalCents
      && (outcome.Succeeded? ==> RefundFact(b, amount) in refunds)
    case Finalize(b, _, amount, _) => InRefund(db.bookings, b) && RefundFact(b, amount) in refunds
    case _ => InRefund(db.bookings, f.booking)
  }

  ghost predicate FlightsOk(w: World) {
    forall f :: f in w.flights ==> FlightOk(w.db, w.sessions, w.refunds, f)
  }

  // --- the provider's sessions ---

  ghost predicate SessionsOk(payments: map<nat, Payment>, sessions: map<nat, Session>) {
    && (forall b :: b in sessions ==> b in payments)
    && (forall b :: b in payments && payments[b].checkoutId.Some? ==>
          b in sessions && sessions[b].checkoutId == payments[b].checkoutId.value)
    && (forall b, c :: b in sessions && c in sessions && b != c ==>
          sessions[b].checkoutId != sessions[c].checkoutId)
  }

  // --- money ---

  /** A paid completed event for this booking, with its checkout, its amount and its currency. */
  predicate Proves(e: Event, b: nat, checkoutId: Option<string>, total: nat) {
    && e.CheckoutCompleted? && e.booking == b && e.paid
    && checkoutId == Some(e.checkoutId)
    && e.amountCents == total && e.currency == CURRENCY
  }

  ghost predicate Proved(consumed: set<Event>, b: nat, checkoutId: Option<string>, total: nat) {
    exists e :: e in consumed && Proves(e, b, checkoutId, total)
  }

  ghost predicate EvidenceOk(db: Db, consumed: set<Event>) {
    forall b :: b in db.payments && b < |db.bookings| && Purchased(db.bookings[b].status) ==>
      Proved(consumed, b, db.payments[b].checkoutId, db.bookings[b].totalCents)
  }

  ghost predicate RefundsOk(bookings: seq<Booking>, refunds: set<RefundFact>) {
    forall b :: 0 <= b < |bookings| && bookings[b].totalCents > 0
                && bookings[b].releasedAt.Some? && bookings[b].status != Expired ==>
      RefundFact(b, bookings[b].totalCents) in refunds
  }

  // --- history ---

  ghost predicate ReturnsOk(bookings: seq<Booking>, returned: multiset<nat>) {
    forall b: nat :: returned[b] == if b < |bookings| && bookings[b].releasedAt.Some? then 1 else 0
  }

  ghost predicate ConsumedOk(events: set<string>, consumed: set<Event>) {
    && (forall e :: e in consumed ==> e.id in events)
    && (forall e, e' :: e in consumed && e' in consumed && e.id == e'.id ==> e == e')
  }

  ghost predicate ProvenanceOk(db: Db, provenance: seq<Provenance>) {
    && |provenance| == |db.bookings|
    && (forall b :: 0 <= b < |provenance| ==>
          && provenance[b].key in db.idempotency
          && db.idempotency[provenance[b].key] == Replay(provenance[b].request, b)
          && db.bookings[b].user == provenance[b].key.user
          && db.bookings[b].departure == provenance[b].request.departure
          && db.bookings[b].quantity == |provenance[b].request.travelers|)
    && (forall key :: key in db.idempotency ==>
          && db.idempotency[key].booking < |provenance|
          && provenance[db.idempotency[key].booking].key == key)
  }

  // --- reviews ---

  ghost predicate ReviewOk(db: Db, now: int, row: Review) {
    && 1 <= row.rating <= 5
    && row.id < db.nextReview
    && Qualified(db, now, row.user, row.tour)
  }

  ghost predicate ReviewsOk(db: Db, now: int) {
    && (forall i :: 0 <= i < |db.reviews| ==> ReviewOk(db, now, db.reviews[i]))
    && (forall i, j :: 0 <= i < j < |db.reviews| ==>
          && (db.reviews[i].user != db.reviews[j].user || db.reviews[i].tour != db.reviews[j].tour)
          && db.reviews[i].id != db.reviews[j].id)
  }

  ghost predicate RatingsOk(tours: seq<Tour>, reviews: seq<Review>) {
    forall t :: 0 <= t < |tours| ==>
      tours[t].ratingCount == Count(reviews, t) && tours[t].ratingAverage == Average(reviews, t)
  }

  /** The booking operations: what is in flight, what was consumed, what went back. */
  ghost predicate OpsOk(w: World) {
    && FlightsOk(w)
    && SessionsOk(w.db.payments, w.sessions)
    && EvidenceOk(w.db, w.consumed)
    && RefundsOk(w.db.bookings, w.refunds)
    && ReturnsOk(w.db.bookings, w.returned)
    && ConsumedOk(w.db.events, w.consumed)
    && ProvenanceOk(w.db, w.provenance)
  }

  ghost predicate ReviewStateOk(db: Db, now: int) {
    ReviewsOk(db, now) && RatingsOk(db.tours, db.reviews)
  }

  ghost predicate Inv(w: World) {
    RowsOk(w.db) && OpsOk(w) && ReviewStateOk(w.db, w.now)
  }

  // --- what a run can only add to ---

  /** The status a booking may have after any number of steps. */
  predicate CanReach(from: Status, to: Status, total: nat) {
    || from == to
    || from == PendingPayment
    || (from == Confirmed && (if total == 0 then to == Cancelled else Refunding(to)))
    || (Refunding(from) && Refunding(to) && total > 0)
  }

  ghost predicate BookingLater(row: Booking, row': Booking) {
    && row' == row.(status := row'.status, cancellationRequestedAt := row'.cancellationRequestedAt,
                    confirmedAt := row'.confirmedAt, cancelledAt := row'.cancelledAt,
                    releasedAt := row'.releasedAt)
    && CanReach(row.status, row'.status, row.totalCents)
    && (row.releasedAt.Some? ==> row'.releasedAt == row.releasedAt)
    && (row.releasedAt.Some? && row.status == CancellationFailed ==> row'.status == CancellationFailed)
  }

  ghost predicate Later(w: World, w': World) {
    && w.config == w'.config && w.now <= w'.now
    && |w.db.bookings| <= |w'.db.bookings|
    && (forall b :: 0 <= b < |w.db.bookings| ==> BookingLater(w.db.bookings[b], w'.db.bookings[b]))
    && (forall b :: b in w.db.payments ==>
          && b in w'.db.payments
          && w'.db.payments[b].id == w.db.payments[b].id
          && (w.db.payments[b].checkoutId.Some? ==> w'.db.payments[b].checkoutId == w.db.payments[b].checkoutId))
    && (forall key :: key in w.db.idempotency ==>
          key in w'.db.idempotency && w'.db.idempotency[key] == w.db.idempotency[key])
    && (forall b :: b in w.sessions ==> b in w'.sessions && w'.sessions[b] == w.sessions[b])
    && w.provenance <= w'.provenance
    && w.db.events <= w'.db.events
    && w.consumed <= w'.consumed
    && w.refunds <= w'.refunds
  }

  lemma LaterTransitive(w: World, v: World, u: World)
    requires Later(w, v) && Later(v, u)
    ensures Later(w, u)
  {
    forall b | 0 <= b < |w.db.bookings|
      ensures BookingLater(w.db.bookings[b], u.db.bookings[b])
    {
      assert BookingLater(w.db.bookings[b], v.db.bookings[b]);
      assert BookingLater(v.db.bookings[b], u.db.bookings[b]);
    }
    assert w.provenance <= u.provenance;
  }
}
