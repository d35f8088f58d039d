/** The transactions of the bookings service, each as one atomic function on the tables.

    A transaction that throws is an `Abort`: the database keeps the rows it had.
  */
module BookingTx {
  import opened Rows
  import opened Pricing

  /** Whether a transaction handed a booking's seats back to its departure. */
  datatype Receipt = Receipt(applied: bool, returned: bool)

  datatype Event =
    | CheckoutCompleted(
        id: string, booking: nat, record: nat, checkoutId: string, paymentId: string,
        amountCents: int, currency: string, paid: bool)
    | CheckoutExpired(id: string, booking: nat, record: nat, checkoutId: string)
    | RefundCompleted(
        id: string, booking: nat, record: nat, paymentId: string, refundId: Option<string>,
        amountCents: int, currency: string)

  predicate ValidKey(key: string) {
    1 <= |key| <= 255 && forall i :: 0 <= i < |key| ==> '!' <= key[i] <= '~'
  }

  // --- create ---

  function BookingRow(user: nat, d: nat, departure: Departure, tour: Tour, quantity: nat,
                      config: Config, now: int): Booking
    requires tour.discount <= 10000
  {
    var price := BookingPrice(tour.priceCents, tour.discount, quantity);
    DiscountWithinUnit(tour.priceCents, tour.discount, quantity);
    var free := price.totalCents == 0;
    Booking(
      user, departure.tour, d, if free then Confirmed else PendingPayment, departure.start,
      tour.priceCents, tour.discount, price.discountCents, price.discountedUnitPriceCents, quantity,
      price.subtotalCents, price.totalCents,
      if free then None else Some(now + config.holdMs),
      None,
      if free then Some(now) else None,
      None,
      None)
  }

  function NewPayment(id: nat, amount: nat): Payment {
    Payment(id, CheckoutPending, amount, None, None, None, None)
  }

  /** Opens a departure for booking: active, future and not deleted, under an active tour. */
  predicate Bookable(db: Db, now: int, d: nat) {
    && d < |db.departures|
    && db.departures[d].active && !db.departures[d].deleted && db.departures[d].start > now
    && db.departures[d].tour < |db.tours|
    && db.tours[db.departures[d].tour].active && !db.tours[db.departures[d].tour].deleted
    && db.tours[db.departures[d].tour].discount <= 10000
  }

  function CreateTx(db: Db, config: Config, now: int, verified: bool, key: ClientKey, request: Request): Tx<nat> {
    if !verified then Abort(Unverified)
    else if !ValidKey(key.key) || request.travelers == [] then Abort(InvalidRequest)
    else if key in db.idempotency then
      if db.idempotency[key].request != request then Abort(KeyReused)
      else Commit(db, db.idempotency[key].booking)
    else if !Bookable(db, now, request.departure) then Abort(NotFound)
    else
      var departure := db.departures[request.departure];
      var tour := db.tours[departure.tour];
      var quantity := |request.travelers|;
      if quantity > tour.maximum || quantity > departure.available then Abort(InsufficientSpots)
      else
        var b := |db.bookings|;
        var row := BookingRow(key.user, request.departure, departure, tour, quantity, config, now);
        var departure' := departure.(available := departure.available - quantity,
                                     reserved := departure.reserved + quantity);
        Commit(
          db.(departures := db.departures[request.departure := departure'],
              bookings := db.bookings + [row],
              payments := if row.totalCents == 0 then db.payments
                          else db.payments[b := NewPayment(|db.payments|, row.totalCents)],
              idempotency := db.idempotency[key := Replay(request, b)]),
          b)
  }

  // --- release ---

  function ReleasedRow(row: Booking, status: Status, now: int): Booking {
    row.(status := status,
         releasedAt := Some(now),
         cancelledAt := if status == Cancelled then Some(now) else None)
  }

  /** Gives a booking's seats back once: a booking already released is left as it is. */
  function Release(db: Db, b: nat, status: Status, now: int): Tx<Receipt>
    requires b < |db.bookings|
  {
    var row := db.bookings[b];
    if row.releasedAt.Some? then Commit(db, Receipt(true, false))
    else if row.departure >= |db.departures| || db.departures[row.departure].reserved < row.quantity then
      Abort(InventoryInconsistent)
    else
      var departure := db.departures[row.departure];
      var departure' := departure.(available := departure.available + row.quantity,
                                   reserved := departure.reserved - row.quantity);
      Commit(
        db.(departures := db.departures[row.departure := departure'],
            bookings := db.bookings[b := ReleasedRow(row, status, now)]),
        Receipt(true, true))
  }

  // --- cancel ---

  datatype Cancellation = Cancellation(refund: bool, returned: bool)

  function CancelTx(db: Db, config: Config, now: int, user: nat, b: nat): Tx<Cancellation> {
    if b >= |db.bookings| || db.bookings[b].user != user then Abort(NotFound)
    else
      var row := db.bookings[b];
      if row.status == Cancelled then Commit(db, Cancellation(false, false))
      else if row.status == CancellationPending || row.status == CancellationFailed then
        Commit(db, Cancellation(true, false))
      else if row.status != Confirmed then Abort(NotCancellable)
      else if now > row.start - config.cutoffMs then Abort(CutoffPassed)
      else if row.totalCents == 0 then
        match Release(db, b, Cancelled, now)
        case Commit(db', receipt) => Commit(db', Cancellation(false, receipt.returned))
        case Abort(error) => Abort(error)
      else
        Commit(
          db.(bookings := db.bookings[b := row.(status := CancellationPending,
                                                cancellationRequestedAt := Some(now))],
              payments := if b in db.payments
                          then db.payments[b := db.payments[b].(status := RefundPending)]
                          else db.payments),
          Cancellation(true, false))
  }

  // --- processEvent ---

  predicate RefundOpen(status: Status) {
    status == CancellationPending || status == CancellationFailed
  }

  /** Another payment row already carries this provider payment (respectively refund) identifier. */
  predicate PaymentIdTaken(payments: map<nat, Payment>, b: nat, id: string) {
    exists p | p in payments :: p != b && payments[p].paymentId == Some(id)
  }

  predicate RefundIdTaken(payments: map<nat, Payment>, b: nat, id: string) {
    exists p | p in payments :: p != b && payments[p].refundId == Some(id)
  }

  predicate CheckoutIdTaken(payments: map<nat, Payment>, b: nat, id: string) {
    exists p | p in payments :: p != b && payments[p].checkoutId == Some(id)
  }

  function CompletedTx(db: Db, now: int, e: Event): Tx<Receipt>
    requires e.CheckoutCompleted? && e.booking < |db.bookings| && e.booking in db.payments
  {
    var row, payment := db.bookings[e.booking], db.payments[e.booking];
    if row.status != PendingPayment then Commit(db, Receipt(false, false))
    else if !e.paid || Some(e.checkoutId) != payment.checkoutId
            || e.amountCents != row.totalCents || e.currency != CURRENCY then Abort(EventMismatch)
    else if PaymentIdTaken(db.payments, e.booking, e.paymentId) then Abort(UniqueViolation)
    else
      Commit(
        db.(bookings := db.bookings[e.booking := row.(status := Confirmed, confirmedAt := Some(now))],
            payments := db.payments[e.booking := payment.(status := Paid, paymentId := Some(e.paymentId))]),
        Receipt(true, false))
  }

  function ExpiredTx(db: Db, now: int, e: Event): Tx<Receipt>
    requires e.CheckoutExpired? && e.booking < |db.bookings| && e.booking in db.payments
  {
    if db.bookings[e.booking].status != PendingPayment
       || Some(e.checkoutId) != db.payments[e.booking].checkoutId then Commit(db, Receipt(false, false))
    else Release(db, e.booking, Expired, now)
  }

  function RefundedTx(db: Db, now: int, e: Event): Tx<Receipt>
    requires e.RefundCompleted? && e.booking < |db.bookings| && e.booking in db.payments
  {
    var row, payment := db.bookings[e.booking], db.payments[e.booking];
    if !RefundOpen(row.status) then Commit(db, Receipt(false, false))
    else if Some(e.paymentId) != payment.paymentId
            || e.amountCents != row.totalCents || e.currency != CURRENCY then Abort(EventMismatch)
    else if e.refundId.Some? && RefundIdTaken(db.payments, e.booking, e.refundId.value) then Abort(UniqueViolation)
    else
      match Release(db, e.booking, Cancelled, now)
      case Abort(error) => Abort(error)
      case Commit(db', receipt) =>
        var refundId := if e.refundId.Some? then e.refundId else payment.refundId;
        Commit(
          db'.(payments := db'.payments[e.booking := payment.(status := Refunded, refundId := refundId)]),
          receipt)
  }

  /** One webhook delivery. The event row is inserted first, so a delivery whose checks throw leaves
      no trace and may be delivered again, and a repeated identifier commits nothing.
    */
  function DeliverTx(db: Db, now: int, e: Event): Tx<Receipt> {
    if e.id in db.events then Commit(db, Receipt(false, false))
    else if e.booking >= |db.bookings| || e.booking !in db.payments
            || db.payments[e.booking].id != e.record then Abort(EventMismatch)
    else
      var db' := db.(events := db.events + {e.id});
      match e
      case CheckoutCompleted(_, _, _, _, _, _, _, _) => CompletedTx(db', now, e)
      case CheckoutExpired(_, _, _, _) => ExpiredTx(db', now, e)
      case RefundCompleted(_, _, _, _, _, _, _) => RefundedTx(db', now, e)
  }

  // --- expireDue, one booking ---

  predicate HoldDue(row: Booking, now: int) {
    row.status == PendingPayment && row.holdExpiresAt.Some? && row.holdExpiresAt.value <= now
  }

  function ExpireTx(db: Db, now: int, b: nat): Tx<Receipt> {
    if b >= |db.bookings| || !HoldDue(db.bookings[b], now) then Commit(db, Receipt(false, false))
    else Release(db, b, Expired, now)
  }

  // --- finalizeRefund ---

  function FinalizeTx(db: Db, now: int, b: nat, refundId: string, amount: int): Tx<Receipt> {
    if b >= |db.bookings| || b !in db.payments || db.bookings[b].status == Cancelled then
      Commit(db, Receipt(false, false))
    else if amount != db.bookings[b].totalCents then Abort(RefundAmountMismatch)
    else if RefundIdTaken(db.payments, b, refundId) then Abort(UniqueViolation)
    else
      match Release(db, b, Cancelled, now)
      case Abort(error) => Abort(error)
      case Commit(db', receipt) =>
        Commit(
          db'.(payments := db'.payments[b := db'.payments[b].(status := Refunded, refundId := Some(refundId))]),
          receipt)
  }
}
