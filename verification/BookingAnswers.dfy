/** When the bookings service accepts a call, what it answers otherwise, and which fields it writes: stated
    on the rows alone.
  */
module BookingAnswers {
  import opened Rows
  import opened BookingTx
  import opened Machine
  import opened Seats
  import opened Invariant
  import opened RowsKept
  import opened Jobs
  import opened BatchJobs

  // --- create ---

  /** One to 255 visible characters. */
  predicate WellFormed(key: string) {
    1 <= |key| <= 255 && forall i :: 0 <= i < |key| ==> 33 <= key[i] as int <= 126
  }

  /** The departure is open for booking at `now`. */
  predicate OnSale(db: Db, now: int, d: nat) {
    && d < |db.departures|
    && db.departures[d].active && !db.departures[d].deleted && now < db.departures[d].start
    && db.departures[d].tour < |db.tours|
    && db.tours[db.departures[d].tour].active && !db.tours[db.departures[d].tour].deleted
  }

  /** A first request with its key is accepted. */
  predicate MayBook(db: Db, now: int, verified: bool, key: ClientKey, request: Request) {
    && verified && WellFormed(key.key) && |request.travelers| > 0
    && OnSale(db, now, request.departure)
    && |request.travelers| <= db.tours[db.departures[request.departure].tour].maximum
    && |request.travelers| <= db.departures[request.departure].available
  }

  /** The departures after so many seats went from available to reserved, or back for a negative number. */
  function SeatsTaken(departures: seq<Departure>, d: nat, seats: int): seq<Departure>
    requires d < |departures|
  {
    departures[d := departures[d].(available := departures[d].available - seats,
                                   reserved := departures[d].reserved + seats)]
  }

  /** The snapshot: the tour's price and percentage, the discount rounded half-up to a cent per seat. */
  ghost predicate PricedBy(row: Booking, tour: Tour, seats: nat) {
    var exact := tour.priceCents * tour.discount;
    && row.unitPriceCents == tour.priceCents && row.discount == tour.discount && row.quantity == seats
    && 20000 * row.discountCents <= 2 * exact + 10000 < 20000 * (row.discountCents + 1)
    && row.discountedUnitPriceCents == tour.priceCents - row.discountCents
    && row.subtotalCents == tour.priceCents * seats
    && row.totalCents == row.discountedUnitPriceCents * seats
  }

  /** A free booking is confirmed at once, any other waits for its payment until its hold ends. */
  predicate StartsAs(row: Booking, config: Config, now: int) {
    && row.cancellationRequestedAt.None? && row.cancelledAt.None? && row.releasedAt.None?
    && if row.totalCents == 0
       then row.status == Confirmed && row.confirmedAt == Some(now) && row.holdExpiresAt.None?
       else row.status == PendingPayment && row.confirmedAt.None? && row.holdExpiresAt == Some(now + config.holdMs)
  }

  /** A new booking, its seats, its payment if it costs something, its key, and nothing else. */
  ghost predicate Booked(db: Db, config: Config, now: int, key: ClientKey, request: Request, db': Db) {
    && OnSale(db, now, request.departure)
    && var b, d, seats := |db.bookings|, request.departure, |request.travelers|;
    var departure := db.departures[d];
    && |db'.bookings| == b + 1 && db'.bookings[..b] == db.bookings
    && var row := db'.bookings[b];
    && row.user == key.user && row.departure == d && row.tour == departure.tour && row.start == departure.start
    && PricedBy(row, db.tours[departure.tour], seats)
    && StartsAs(row, config, now)
    && db'.departures == SeatsTaken(db.departures, d, seats)
    && db'.payments == (if row.totalCents == 0 then db.payments
                        else db.payments[b := Payment(|db.payments|, CheckoutPending, row.totalCents,
                                                      None, None, None, None)])
    && db' == db.(bookings := db'.bookings, departures := db'.departures, payments := db'.payments,
                  idempotency := db.idempotency[key := Replay(request, b)])
  }

  /** Departures belong to tours, and percentages stay below a hundred. */
  ghost predicate CatalogOk(db: Db) {
    && (forall d :: 0 <= d < |db.departures| ==> db.departures[d].tour < |db.tours|)
    && (forall t :: 0 <= t < |db.tours| ==> db.tours[t].discount < 10000)
  }

  lemma RowsHaveCatalog(db: Db)
    requires RowsOk(db)
    ensures CatalogOk(db)
  {
    forall d | 0 <= d < |db.departures| ensures db.departures[d].tour < |db.tours| {
      assert SeatOk(db.tours, db.departures[d], Held(db.bookings, d));
    }
  }

  /** An unused key books exactly when the request may be booked, and then writes this and nothing else. */
  lemma CreateExactly(db: Db, config: Config, now: int, verified: bool, key: ClientKey, request: Request)
    requires CatalogOk(db) && key !in db.idempotency
    ensures var tx := CreateTx(db, config, now, verified, key, request);
      && (tx.Commit? <==> MayBook(db, now, verified, key, request))
      && (tx.Commit? ==>
            tx.value == |db.bookings| && Booked(db, config, now, key, request, tx.db))
      && (tx.Abort? ==>
            tx.error == if !verified then Unverified
                        else if !WellFormed(key.key) || request.travelers == [] then InvalidRequest
                        else if OnSale(db, now, request.departure) then InsufficientSpots else NotFound)
  {
    var tx := CreateTx(db, config, now, verified, key, request);
    SameKeys(key.key);
    hide ValidKey, WellFormed;
    if tx.Commit? {
      RowIsPriced(db, config, now, key.user, request);
      hide BookingRow, PricedBy;
    }
  }

  lemma MayBookExactly(db: Db, config: Config, now: int, verified: bool, key: ClientKey, request: Request)
    ensures CatalogOk(db) && key !in db.idempotency ==>
      var tx := CreateTx(db, config, now, verified, key, request);
      && (tx.Commit? <==> MayBook(db, now, verified, key, request))
      && (tx.Commit? ==> Booked(db, config, now, key, request, tx.db))
  {
    hide CatalogOk, CreateTx, Booked;
    if CatalogOk(db) && key !in db.idempotency {
      CreateExactly(db, config, now, verified, key, request);
    }
  }

  lemma SameKeys(key: string)
    ensures ValidKey(key) <==> WellFormed(key)
  {
    if ValidKey(key) {
      forall i | 0 <= i < |key| ensures 33 <= key[i] as int <= 126 {
        assert '!' <= key[i] <= '~';
      }
    }
  }

  lemma RowIsPriced(db: Db, config: Config, now: int, user: nat, request: Request)
    requires Bookable(db, now, request.departure)
    ensures var departure := db.departures[request.departure];
      var row := BookingRow(user, request.departure, departure, db.tours[departure.tour],
                            |request.travelers|, config, now);
      && PricedBy(row, db.tours[departure.tour], |request.travelers|) && StartsAs(row, config, now)
      && row.user == user && row.departure == request.departure && row.tour == departure.tour
      && row.start == departure.start
  {
  }

  /** A used key writes nothing: it answers its booking again, or refuses another request. */
  lemma ReplayExactly(db: Db, config: Config, now: int, verified: bool, key: ClientKey, request: Request)
    requires key in db.idempotency
    ensures var tx := CreateTx(db, config, now, verified, key, request);
      && (tx.Commit? <==> verified && WellFormed(key.key) && |request.travelers| > 0
                          && db.idempotency[key].request == request)
      && (tx.Commit? ==> tx == Commit(db, db.idempotency[key].booking))
      && (verified && WellFormed(key.key) && |request.travelers| > 0 && tx.Abort? ==> tx.error == KeyReused)
  {
    SameKeys(key.key);
  }

  // --- cancel ---

  /** The seats of an unreleased booking go back and its row closes. */
  ghost predicate GivenBack(db: Db, b: nat, status: Status, now: int, db': Db)
    requires b < |db.bookings| && db.bookings[b].departure < |db.departures|
  {
    var row := db.bookings[b];
    && db'.bookings == db.bookings[b := row.(status := status, releasedAt := Some(now),
                                             cancelledAt := if status == Cancelled then Some(now) else None)]
    && db'.departures == SeatsTaken(db.departures, row.departure, -(row.quantity as int))
  }

  /** What an accepted cancellation writes: a free booking gives its seats back at once, a paid one asks for
      its refund and keeps them.
    */
  ghost predicate CancelWrites(db: Db, b: nat, now: int, db': Db, value: Cancellation)
    requires b < |db.bookings| && db.bookings[b].departure < |db.departures|
  {
    var row := db.bookings[b];
    if row.totalCents == 0 then
      && GivenBack(db, b, Cancelled, now, db') && value == Cancellation(false, true)
      && db' == db.(bookings := db'.bookings, departures := db'.departures)
    else
      && b in db.payments && value == Cancellation(true, false)
      && db' == db.(bookings := db.bookings[b := row.(status := CancellationPending,
                                                      cancellationRequestedAt := Some(now))],
                    payments := db.payments[b := db.payments[b].(status := RefundPending)])
  }

  /** A confirmed booking can be cancelled exactly up to its cutoff; closed ones answer again without a
      write; pending and expired ones are refused; strangers find nothing.
    */
  ghost predicate CancelAnswer(db: Db, config: Config, now: int, user: nat, b: nat, r: Result<Cancellation>, db': Db) {
    if b >= |db.bookings| || db.bookings[b].user != user then r == Err(NotFound) && db' == db
    else
      match db.bookings[b].status
      case PendingPayment => r == Err(NotCancellable) && db' == db
      case Expired => r == Err(NotCancellable) && db' == db
      case Cancelled => r == Ok(Cancellation(false, false)) && db' == db
      case CancellationPending => r == Ok(Cancellation(true, false)) && db' == db
      case CancellationFailed => r == Ok(Cancellation(true, false)) && db' == db
      case Confirmed =>
        && db.bookings[b].departure < |db.departures|
        && (r.Ok? <==> now <= db.bookings[b].start - config.cutoffMs)
        && (if r.Ok? then CancelWrites(db, b, now, db', r.value) else r == Err(CutoffPassed) && db' == db)
  }

  lemma CancelExactly(db: Db, config: Config, now: int, user: nat, b: nat)
    requires RowsOk(db)
    ensures match CancelTx(db, config, now, user, b)
      case Commit(db', value) => CancelAnswer(db, config, now, user, b, Ok(value), db')
      case Abort(error) => CancelAnswer(db, config, now, user, b, Err(error), db)
  {
    if b < |db.bookings| {
      assert PhaseOk(db.bookings[b]) && SnapshotOk(db.departures, db.bookings[b]);
      ReleaseCommits(db, b, Cancelled, now);
      hide SeatsOk, SnapshotsOk, PhasesOk;
    }
  }

  lemma CancelAnswered(db: Db, config: Config, now: int, user: nat, b: nat)
    ensures RowsOk(db) ==>
      match CancelTx(db, config, now, user, b)
      case Commit(db', value) => CancelAnswer(db, config, now, user, b, Ok(value), db')
      case Abort(error) => CancelAnswer(db, config, now, user, b, Err(error), db)
  {
    hide RowsOk, CancelTx, CancelAnswer;
    if RowsOk(db) {
      CancelExactly(db, config, now, user, b);
    }
  }

  // --- webhooks ---

  /** No other payment carries the identifier. */
  predicate PaymentIdFree(payments: map<nat, Payment>, b: nat, id: string) {
    forall p | p in payments :: p != b ==> payments[p].paymentId != Some(id)
  }

  predicate RefundIdFree(payments: map<nat, Payment>, b: nat, id: string) {
    forall p | p in payments :: p != b ==> payments[p].refundId != Some(id)
  }

  predicate CheckoutIdFree(payments: map<nat, Payment>, b: nat, id: string) {
    forall p | p in payments :: p != b ==> payments[p].checkoutId != Some(id)
  }

  /** The event names a booking and the payment row it was made with. */
  predicate Addressed(db: Db, e: Event) {
    e.booking < |db.bookings| && e.booking in db.payments && db.payments[e.booking].id == e.record
  }

  /** A repeated event is acknowledged without a write; a fresh one that names no payment is refused. */
  lemma DeliverAddressedExactly(db: Db, now: int, e: Event)
    ensures e.id in db.events ==> DeliverTx(db, now, e) == Commit(db, Receipt(false, false))
    ensures e.id !in db.events && !Addressed(db, e) ==> DeliverTx(db, now, e) == Abort(EventMismatch)
  {
  }

  /** A completed checkout confirms a pending booking exactly when it is paid and names its checkout, its
      amount and its currency, with a payment identifier of its own; otherwise it is refused. A booking that
      no longer waits uses the event up.
    */
  lemma CompletedExactly(db: Db, now: int, e: Event)
    requires e.CheckoutCompleted? && e.id !in db.events && Addressed(db, e)
    ensures var tx := DeliverTx(db, now, e); var b := e.booking; var row, payment := db.bookings[b], db.payments[b];
      if row.status != PendingPayment then
        tx == Commit(db.(events := db.events + {e.id}), Receipt(false, false))
      else
        var matches := e.paid && payment.checkoutId == Some(e.checkoutId) && e.amountCents == row.totalCents
                       && e.currency == "usd";
        && (tx.Commit? <==> matches && PaymentIdFree(db.payments, b, e.paymentId))
        && (tx.Abort? ==> tx.error == if matches then UniqueViolation else EventMismatch)
        && (tx.Commit? ==>
              && tx.value == Receipt(true, false)
              && tx.db == db.(events := db.events + {e.id},
                              bookings := db.bookings[b := row.(status := Confirmed, confirmedAt := Some(now))],
                              payments := db.payments[b := payment.(status := Paid, paymentId := Some(e.paymentId))]))
  {
  }

  /** An expired checkout ends a pending booking exactly when it is the booking's, and is used up otherwise. */
  lemma ExpiredExactly(db: Db, now: int, e: Event)
    requires RowsOk(db) && e.CheckoutExpired? && e.id !in db.events && Addressed(db, e)
    ensures var tx := DeliverTx(db, now, e); var b := e.booking;
      && tx.Commit? && tx.db.events == db.events + {e.id} && b < |db.bookings|
      && db.bookings[b].departure < |db.departures|
      && if db.bookings[b].status == PendingPayment && db.payments[b].checkoutId == Some(e.checkoutId)
         then GivenBack(db, b, Expired, now, tx.db) && tx.db.payments == db.payments
         else tx.db == db.(events := tx.db.events)
  {
    var db1 := db.(events := db.events + {e.id});
    EventKeeps(db, e.id);
    ReleaseCommits(db1, e.booking, Expired, now);
    assert PhaseOk(db.bookings[e.booking]) && SnapshotOk(db.departures, db.bookings[e.booking]);
    hide SeatsOk, SnapshotsOk, PhasesOk, PaymentsOk;
  }

  /** What ends a cancellation: the seats go back unless they already did, and the payment is refunded. */
  ghost predicate CancellationEnds(db: Db, b: nat, now: int, refundId: Option<string>, db': Db)
    requires b < |db.bookings| && b in db.payments && db.bookings[b].departure < |db.departures|
  {
    && (if db.bookings[b].releasedAt.None? then GivenBack(db, b, Cancelled, now, db')
        else db'.bookings == db.bookings && db'.departures == db.departures)
    && db'.payments == db.payments[b := db.payments[b].(
         status := Refunded, refundId := if refundId.Some? then refundId else db.payments[b].refundId)]
  }

  /** A refund event finishes an open cancellation, whether pending or failed, exactly when it names its
      payment, its full amount and its currency, with a refund identifier nobody else has; otherwise it is
      refused. Any other booking uses the event up.
    */
  lemma RefundedExactly(db: Db, now: int, e: Event)
    requires RowsOk(db) && e.RefundCompleted? && e.id !in db.events && Addressed(db, e)
    ensures var tx := DeliverTx(db, now, e); var b := e.booking; var row, payment := db.bookings[b], db.payments[b];
      && row.departure < |db.departures|
      && if row.status != CancellationPending && row.status != CancellationFailed then
           tx == Commit(db.(events := db.events + {e.id}), Receipt(false, false))
         else
           var matches := payment.paymentId == Some(e.paymentId) && e.amountCents == row.totalCents
                          && e.currency == "usd";
           && (tx.Commit? <==>
                 matches && (e.refundId.Some? ==> RefundIdFree(db.payments, b, e.refundId.value)))
           && (tx.Abort? ==> tx.error == if matches then UniqueViolation else EventMismatch)
           && (tx.Commit? ==>
                 tx.db.events == db.events + {e.id} && CancellationEnds(db, b, now, e.refundId, tx.db))
  {
    var db1 := db.(events := db.events + {e.id});
    EventKeeps(db, e.id);
    ReleaseCommits(db1, e.booking, Cancelled, now);
    assert PhaseOk(db.bookings[e.booking]) && SnapshotOk(db.departures, db.bookings[e.booking]);
    hide SeatsOk, SnapshotsOk, PhasesOk, PaymentsOk;
  }

  // --- expiry and refunds ---

  /** The hold has run out. */
  predicate RunOut(row: Booking, now: int) {
    row.status == PendingPayment && row.holdExpiresAt.Some? && row.holdExpiresAt.value <= now
  }

  /** One round of the expiry job ends a booking exactly when its hold has run out. */
  lemma ExpireExactly(db: Db, now: int, b: nat)
    requires RowsOk(db)
    ensures var tx := ExpireTx(db, now, b);
      && tx.Commit?
      && if b < |db.bookings| && RunOut(db.bookings[b], now)
         then db.bookings[b].departure < |db.departures| && GivenBack(db, b, Expired, now, tx.db)
         else tx.db == db
  {
    if b < |db.bookings| {
      assert PhaseOk(db.bookings[b]) && SnapshotOk(db.departures, db.bookings[b]);
      ReleaseCommits(db, b, Expired, now);
      hide SeatsOk, SnapshotsOk, PhasesOk;
    }
  }

  /** The provider's word that an open cancellation is refunded is taken exactly for the full amount and a
      refund identifier nobody else has.
    */
  lemma FinalizeExactly(db: Db, now: int, b: nat, refundId: string, amount: int)
    requires RowsOk(db) && b < |db.bookings|
    requires db.bookings[b].status == CancellationPending || db.bookings[b].status == CancellationFailed
    ensures var tx := FinalizeTx(db, now, b, refundId, amount);
      && b in db.payments && db.bookings[b].departure < |db.departures|
      && (tx.Commit? <==> amount == db.bookings[b].totalCents && RefundIdFree(db.payments, b, refundId))
      && (tx.Commit? ==> CancellationEnds(db, b, now, Some(refundId), tx.db))
  {
    RefundHasPayment(db, b);
    ReleaseCommits(db, b, Cancelled, now);
    assert SnapshotOk(db.departures, db.bookings[b]);
    hide SeatsOk, SnapshotsOk, PhasesOk, PaymentsOk;
  }

  /** An uninterrupted refund of an open cancellation: without an answer, or with a refund identifier of
      another payment, booking and payment read failed and the seats stay; a granted one ends the
      cancellation; one that is pending or failed is noted on the payment alone.
    */
  lemma RefundExactly(db: Db, now: int, b: nat, answer: Reply)
    requires RowsOk(db) && b < |db.bookings|
    requires db.bookings[b].status == CancellationPending || db.bookings[b].status == CancellationFailed
    ensures var db' := RefundRows(db, now, b, answer);
      && b in db.payments && db.bookings[b].departure < |db.departures|
      && var row, payment := db.bookings[b], db.payments[b];
      if !(answer.RefundAnswer? && RefundIdFree(db.payments, b, answer.refundId)) then
        db' == db.(bookings := db.bookings[b := row.(status := CancellationFailed)],
                   payments := db.payments[b := payment.(status := RefundFailed)])
      else if answer.outcome == Succeeded then CancellationEnds(db, b, now, Some(answer.refundId), db')
      else
        db' == db.(payments := db.payments[b := payment.(
          refundId := Some(answer.refundId),
          status := if answer.outcome == Pending then RefundPending else RefundFailed)])
  {
    hide SeatsOk, SnapshotsOk, PhasesOk, PaymentsOk, FinalizeTx, CancellationEnds;
    RefundHasPayment(db, b);
    Placed(db, b);
    if answer.RefundAnswer? && RefundIdFree(db.payments, b, answer.refundId) && answer.outcome == Succeeded {
      var db1 := SetPayment(db, b, RefundedPayment(db.payments[b], answer.refundId, answer.outcome));
      PaymentKeeps(db, b, db1.payments[b]);
      StillFree(db.payments, b, db1.payments[b], answer.refundId);
      FinalizeExactly(db1, now, b, answer.refundId, db.payments[b].amountCents);
      hide RowsOk;
      EndsTheSame(db, b, now, answer.refundId, db1.payments[b], RefundRows(db, now, b, answer));
    }
  }

  lemma Placed(db: Db, b: nat)
    requires RowsOk(db) && b < |db.bookings|
    ensures db.bookings[b].departure < |db.departures|
  {
    assert SnapshotOk(db.departures, db.bookings[b]);
  }

  lemma StillFree(payments: map<nat, Payment>, b: nat, payment: Payment, id: string)
    requires b in payments && RefundIdFree(payments, b, id)
    ensures RefundIdFree(payments[b := payment], b, id)
  {
  }

  lemma EndsTheSame(db: Db, b: nat, now: int, refundId: string, payment: Payment, db': Db)
    requires b < |db.bookings| && b in db.payments && db.bookings[b].departure < |db.departures|
    requires payment == db.payments[b].(refundId := payment.refundId, status := payment.status)
    requires CancellationEnds(SetPayment(db, b, payment), b, now, Some(refundId), db')
    ensures CancellationEnds(db, b, now, Some(refundId), db')
  {
    assert db'.payments == db.payments[b := db.payments[b].(status := Refunded, refundId := Some(refundId))];
  }

  /** One round of the reconciliation for a requested refund: the full refund ends the cancellation and is
      counted, a failed one is noted on the payment, and anything else leaves every row.
    */
  lemma InspectExactly(db: Db, now: int, row: Selected, answer: Reply)
    requires RowsOk(db) && RefundIdsApart(db.payments) && Unrefunded(db, row.booking)
    requires row.refundId.Some? && row.refundId == db.payments[row.booking].refundId
    ensures var settled := ReconcileOne(db, now, row, answer); var b := row.booking;
      && db.bookings[b].departure < |db.departures|
      && if answer.Inspection? && answer.outcome == Succeeded && answer.amountCents == db.bookings[b].totalCents
         then settled.changed && CancellationEnds(db, b, now, row.refundId, settled.db)
         else
           && !settled.changed
           && settled.db == if answer.Inspection? && answer.outcome == Failed
                            then db.(payments := db.payments[b := db.payments[b].(status := RefundFailed)]) else db
  {
    hide RowsOk, FinalizeTx, CancellationEnds;
    Placed(db, row.booking);
    OwnIdFree(db.payments, row.booking);
    if answer.Inspection? && answer.outcome == Succeeded {
      FinalizeExactly(db, now, row.booking, row.refundId.value, answer.amountCents);
    }
  }

  /** The awaits of an inspection. */
  function InspectSteps(b: nat, refundId: string, answer: Reply): seq<Step> {
    var amount := if answer.Inspection? then answer.amountCents else 0;
    [Advance(InspectCall(b, refundId), answer), Advance(Finalize(b, refundId, amount, FromReconcile), Done),
     Advance(InspectFailed(b), Done)]
  }

  /** Run alone, they leave the rows of the uninterrupted round. */
  lemma InspectAlone(w: World, b: nat, refundId: string, answer: Reply)
    requires w.flights == multiset{InspectCall(b, refundId)} && b in w.db.payments
    ensures Run(w, InspectSteps(b, refundId, answer)).db
         == ReconcileOne(w.db, w.now, Selected(b, Some(refundId)), answer).db
  {
    hide Apply;
    var steps := InspectSteps(b, refundId, answer);
    var w1 := Apply(w, steps[0]);
    var w2 := Apply(w1, steps[1]);
    InspectAsks(w, b, refundId, answer);
    RunOn(w, steps);
    RunOn(w1, steps[1..]);
    RunOn(w2, steps[2..]);
    assert steps[1..][1..] == steps[2..] && steps[2..][1..] == [];
    if answer.Inspection? && answer.outcome == Succeeded {
      InspectFinalizes(w1, b, refundId, answer.amountCents);
      NotInFlight(w2, InspectFailed(b), Done);
    } else {
      NotInFlight(w1, steps[1].flight, Done);
      if answer.Inspection? && answer.outcome == Failed {
        InspectNotes(w1, b);
      } else {
        NotInFlight(w1, InspectFailed(b), Done);
      }
    }
  }

  lemma InspectAsks(w: World, b: nat, refundId: string, answer: Reply)
    requires w.flights == multiset{InspectCall(b, refundId)}
    ensures var w' := Apply(w, Advance(InspectCall(b, refundId), answer));
      && w' == w.(flights := w'.flights, refunds := w'.refunds)
      && w'.flights == if !answer.Inspection? || answer.outcome == Pending then multiset{}
                       else if answer.outcome == Failed then multiset{InspectFailed(b)}
                       else multiset{Finalize(b, refundId, answer.amountCents, FromReconcile)}
  {
  }

  lemma InspectFinalizes(w: World, b: nat, refundId: string, amount: int)
    requires w.flights == multiset{Finalize(b, refundId, amount, FromReconcile)}
    ensures var w' := Apply(w, Advance(Finalize(b, refundId, amount, FromReconcile), Done));
      var tx := FinalizeTx(w.db, w.now, b, refundId, amount);
      w'.flights == multiset{} && w'.db == if tx.Commit? then tx.db else w.db
  {
    hide FinalizeTx;
  }

  lemma InspectNotes(w: World, b: nat)
    requires w.flights == multiset{InspectFailed(b)} && b in w.db.payments
    ensures Apply(w, Advance(InspectFailed(b), Done)).db
         == SetPayment(w.db, b, w.db.payments[b].(status := RefundFailed))
  {
  }

  // --- checkout ---

  /** The owner of a booking gets through exactly when there is nothing to pay, the checkout is open already,
      or the provider answers with identifiers nobody else has; then, and only then, the answer is stored.
    */
  lemma CheckoutExactly(db: Db, user: nat, b: nat, answer: Option<Session>)
    requires RowsOk(db) && b < |db.bookings| && db.bookings[b].user == user
    ensures var threw, db' := OpenCheckoutThrows(db, user, b, answer), OpenCheckoutRows(db, user, b, answer);
      if db.bookings[b].totalCents == 0 then !threw && db' == db
      else
        && b in db.payments
        && var payment := db.payments[b];
        if payment.status == CheckoutOpen && payment.checkoutUrl.Some? then !threw && db' == db
        else
          && (threw <==>
                !(answer.Some? && CheckoutIdFree(db.payments, b, answer.value.checkoutId)
                  && (answer.value.paymentId.Some? ==> PaymentIdFree(db.payments, b, answer.value.paymentId.value))))
          && db' == if threw then db
                    else db.(payments := db.payments[b := Payment(
                      payment.id, CheckoutOpen, payment.amountCents, Some(answer.value.checkoutId),
                      if answer.value.paymentId.Some? then answer.value.paymentId else payment.paymentId,
                      payment.refundId, Some(answer.value.url))])
  {
    hide SeatsOk, SnapshotsOk, PhasesOk;
  }

  // --- what the batch jobs select ---

  /** An open cancellation whose refund is pending or failed. */
  predicate Unrefunded(db: Db, b: nat) {
    && b < |db.bookings| && b in db.payments
    && (db.bookings[b].status == CancellationPending || db.bookings[b].status == CancellationFailed)
    && (db.payments[b].status == RefundPending || db.payments[b].status == RefundFailed)
  }

  /** A pending booking whose checkout was never opened and whose hold still runs. */
  predicate Unopened(db: Db, now: int, b: nat) {
    && b < |db.bookings| && b in db.payments
    && db.bookings[b].status == PendingPayment && db.payments[b].status == CheckoutPending
    && db.bookings[b].holdExpiresAt.Some? && now < db.bookings[b].holdExpiresAt.value
  }

  /** Each job selects exactly its bookings, once each, as many as the limit allows. */
  lemma SelectionsExactly(db: Db, now: int, limit: nat)
    ensures forall b: nat :: b in Due(db.bookings, now) <==> b < |db.bookings| && RunOut(db.bookings[b], now)
    ensures forall b: nat :: b in Recoverables(db, now, |db.bookings|) <==> Unopened(db, now, b)
    ensures forall row :: row in Unsettled(db, |db.bookings|)
              <==> Unrefunded(db, row.booking) && row.refundId == db.payments[row.booking].refundId
    ensures var due := Due(db.bookings, now); var ids := Take(due, limit);
      ids <= due && |ids| == if |due| <= limit then |due| else limit
    ensures var all := Recoverables(db, now, |db.bookings|); var ids := Take(all, limit);
      ids <= all && |ids| == if |all| <= limit then |all| else limit
    ensures var all := Unsettled(db, |db.bookings|); var rows := TakeSelected(all, limit);
      rows <= all && |rows| == if |all| <= limit then |all| else limit
  {
    DueExactly(db.bookings, now);
    RecoverablesExactly(db, now, |db.bookings|);
    UnsettledExactly(db, |db.bookings|);
    hide Due, Recoverables, Unsettled;
  }

  // --- what a call leaves running ---

  /** An accepted create, new or repeated, goes on to open its checkout; a refused one starts nothing. */
  lemma CreateStarts(w: World, verified: bool, key: ClientKey, request: Request)
    ensures var tx := CreateTx(w.db, w.config, w.now, verified, key, request);
      Apply(w, Create(verified, key, request)).flights ==
        w.flights + (if tx.Commit? then multiset{CheckoutOwned(key.user, tx.value)} else multiset{})
  {
    hide CreateTx;
  }

  /** A cancellation that reports a refund goes on to ask for it; any other starts nothing. */
  lemma CancelStarts(w: World, user: nat, b: nat)
    ensures var tx := CancelTx(w.db, w.config, w.now, user, b);
      Apply(w, Cancel(user, b)).flights ==
        w.flights + (if tx.Commit? && tx.value.refund then multiset{RefundLoad(b)} else multiset{})
  {
    hide CancelTx;
  }

  /** The jobs start an operation exactly for what they select: a checkout for an unopened booking, and for an
      unrefunded one a request or, if there was one, an inspection.
    */
  lemma JobsStart(w: World, b: nat)
    ensures Apply(w, Recover(b)) == w.(flights :=
      w.flights + if Unopened(w.db, w.now, b) then multiset{CheckoutOwned(w.db.bookings[b].user, b)} else multiset{})
    ensures Apply(w, Reconcile(b)) == w.(flights :=
      w.flights + if !Unrefunded(w.db, b) then multiset{}
                  else if w.db.payments[b].refundId.None? then multiset{RefundLoad(b)}
                  else multiset{InspectCall(b, w.db.payments[b].refundId.value)})
  {
  }
}
