/** Every transaction keeps the row invariant: seats, snapshots, phases and payments. */
module RowsKept {
  import opened Rows
  import opened Pricing
  import opened Seats
  import opened BookingTx
  import opened CatalogTx
  import opened Invariant

  /** In a good state the "inventory is inconsistent" guard never fires. */
  lemma ReleaseCommits(db: Db, b: nat, status: Status, now: int)
    requires RowsOk(db) && b < |db.bookings|
    ensures Release(db, b, status, now).Commit?
    ensures Release(db, b, status, now).value.returned <==> db.bookings[b].releasedAt.None?
  {
    assert SnapshotOk(db.departures, db.bookings[b]);
    if db.bookings[b].releasedAt.None? {
      ReservedCovers(db.tours, db.departures, db.bookings, b);
    }
  }

  lemma ReleaseKeeps(db: Db, b: nat, status: Status, now: int)
    requires RowsOk(db) && b < |db.bookings|
    requires db.bookings[b].releasedAt.None? ==>
               || (status == Cancelled && Purchased(db.bookings[b].status))
               || (status == Expired && db.bookings[b].totalCents > 0)
    requires Release(db, b, status, now).Commit?
    ensures RowsOk(Release(db, b, status, now).db)
  {
    hide SeatsOk, Held;
    var row := db.bookings[b];
    var db' := Release(db, b, status, now).db;
    assert SnapshotOk(db.departures, row);
    if row.releasedAt.None? {
      SeatsReleased(db.tours, db.departures, db.bookings, b, db'.bookings[b], db'.departures[row.departure]);
      assert SnapshotsOk(db'.departures, db'.bookings);
    }
  }

  lemma StatusKeeps(db: Db, b: nat, row: Booking)
    requires RowsOk(db) && b < |db.bookings|
    requires row == db.bookings[b].(status := row.status, confirmedAt := row.confirmedAt,
                                    cancellationRequestedAt := row.cancellationRequestedAt)
    requires PhaseOk(row)
    requires b in db.payments && Purchased(row.status) ==> db.payments[b].paymentId.Some?
    ensures RowsOk(db.(bookings := db.bookings[b := row]))
  {
    assert SnapshotOk(db.departures, db.bookings[b]);
    SeatsUnmoved(db.tours, db.departures, db.bookings, b, row);
  }

  lemma PaymentKeeps(db: Db, b: nat, payment: Payment)
    requires RowsOk(db) && b in db.payments && payment.amountCents == db.payments[b].amountCents
    requires db.payments[b].paymentId.Some? ==> payment.paymentId.Some?
    ensures RowsOk(db.(payments := db.payments[b := payment]))
  {
  }

  lemma EventKeeps(db: Db, id: string)
    requires RowsOk(db)
    ensures RowsOk(db.(events := db.events + {id}))
  {
  }

  lemma CreateKeeps(db: Db, config: Config, now: int, verified: bool, key: ClientKey, request: Request)
    requires RowsOk(db) && CreateTx(db, config, now, verified, key, request).Commit?
    ensures RowsOk(CreateTx(db, config, now, verified, key, request).db)
  {
    if key !in db.idempotency {
      var d := request.departure;
      var row := BookingRow(key.user, d, db.departures[d], db.tours[db.departures[d].tour],
                            |request.travelers|, config, now);
      BookedRowOk(db, config, now, key.user, request);
      SeatsBooked(db.tours, db.departures, db.bookings, row, TakenFrom(db.departures[d], row.quantity));
      BookedSnapshots(db.departures, db.bookings, row);
      BookedPayments(db, row);
      assert PhasesOk(db.bookings + [row]);
    }
  }

  function TakenFrom(departure: Departure, quantity: nat): Departure {
    departure.(available := departure.available - quantity, reserved := departure.reserved + quantity)
  }

  lemma BookedRowOk(db: Db, config: Config, now: int, user: nat, request: Request)
    requires RowsOk(db) && Bookable(db, now, request.departure) && |request.travelers| > 0
    ensures var d := request.departure;
      var row := BookingRow(user, d, db.departures[d], db.tours[db.departures[d].tour],
                            |request.travelers|, config, now);
      && PhaseOk(row) && row.departure == d && row.releasedAt.None?
      && (row.totalCents > 0 ==> row.status == PendingPayment)
      && row.quantity == |request.travelers|
      && row.tour == db.departures[d].tour && row.start == db.departures[d].start
      && db.departures[d].active && !db.departures[d].deleted
  {
    hide BookingPrice;
  }

  lemma BookedSnapshots(departures: seq<Departure>, bookings: seq<Booking>, row: Booking)
    requires SnapshotsOk(departures, bookings) && row.departure < |departures|
    requires SnapshotOk(departures, row)
    ensures SnapshotsOk(departures[row.departure := TakenFrom(departures[row.departure], row.quantity)],
                        bookings + [row])
  {
    var departures' := departures[row.departure := TakenFrom(departures[row.departure], row.quantity)];
    forall b | 0 <= b < |bookings| ensures SnapshotOk(departures', bookings[b]) {
      assert SnapshotOk(departures, bookings[b]);
    }
  }

  lemma BookedPayments(db: Db, row: Booking)
    requires PaymentsOk(db) && (row.totalCents > 0 ==> row.status == PendingPayment)
    ensures var b := |db.bookings|;
      PaymentsOk(db.(bookings := db.bookings + [row],
                     payments := if row.totalCents == 0 then db.payments
                                 else db.payments[b := NewPayment(|db.payments|, row.totalCents)]))
  {
  }

  lemma CancelKeeps(db: Db, config: Config, now: int, user: nat, b: nat)
    requires RowsOk(db) && CancelTx(db, config, now, user, b).Commit?
    ensures RowsOk(CancelTx(db, config, now, user, b).db)
  {
    var row := db.bookings[b];
    var db' := CancelTx(db, config, now, user, b).db;
    assert PhaseOk(row);
    if row.status == Confirmed {
      if row.totalCents == 0 {
        ReleaseKeeps(db, b, Cancelled, now);
      } else {
        StatusKeeps(db, b, db'.bookings[b]);
        PaymentKeeps(db.(bookings := db'.bookings), b, db'.payments[b]);
      }
    }
  }

  lemma DeliverKeeps(db: Db, now: int, e: Event)
    requires RowsOk(db) && DeliverTx(db, now, e).Commit?
    ensures RowsOk(DeliverTx(db, now, e).db)
  {
    if e.id !in db.events {
      var db1 := db.(events := db.events + {e.id});
      var db' := DeliverTx(db, now, e).db;
      EventKeeps(db, e.id);
      assert PhaseOk(db.bookings[e.booking]);
      if e.CheckoutCompleted? && db.bookings[e.booking].status == PendingPayment {
        PaymentKeeps(db1, e.booking, db'.payments[e.booking]);
        StatusKeeps(db1.(payments := db'.payments), e.booking, db'.bookings[e.booking]);
      } else if e.CheckoutExpired? && DeliverTx(db, now, e).value.applied {
        ReleaseKeeps(db1, e.booking, Expired, now);
      } else if e.RefundCompleted? && RefundOpen(db.bookings[e.booking].status) {
        ReleaseKeeps(db1, e.booking, Cancelled, now);
        PaymentKeeps(Release(db1, e.booking, Cancelled, now).db, e.booking, db'.payments[e.booking]);
      }
    }
  }

  lemma ExpireKeeps(db: Db, now: int, b: nat)
    requires RowsOk(db) && ExpireTx(db, now, b).Commit?
    ensures RowsOk(ExpireTx(db, now, b).db)
  {
    if b < |db.bookings| && HoldDue(db.bookings[b], now) {
      assert PhaseOk(db.bookings[b]);
      ReleaseKeeps(db, b, Expired, now);
    }
  }

  lemma FinalizeKeeps(db: Db, now: int, b: nat, refundId: string, amount: int)
    requires RowsOk(db) && FinalizeTx(db, now, b, refundId, amount).Commit?
    requires b < |db.bookings| ==> Purchased(db.bookings[b].status)
    ensures RowsOk(FinalizeTx(db, now, b, refundId, amount).db)
  {
    if b < |db.bookings| && b in db.payments && db.bookings[b].status != Cancelled {
      var db' := FinalizeTx(db, now, b, refundId, amount).db;
      ReleaseKeeps(db, b, Cancelled, now);
      PaymentKeeps(Release(db, b, Cancelled, now).db, b, db'.payments[b]);
    }
  }

  // --- departures and tours ---

  /** Only an unreserved departure changes its instant, its visibility or its existence. */
  lemma DepartureKeeps(db: Db, d: nat, row: Departure)
    requires RowsOk(db) && d < |db.departures|
    requires row.tour == db.departures[d].tour && row.reserved == db.departures[d].reserved
    requires SeatOk(db.tours, row, Held(db.bookings, d))
    requires row.reserved > 0 ==>
               && row.start == db.departures[d].start
               && row.deleted == db.departures[d].deleted
               && (row.active || !db.departures[d].active)
    ensures RowsOk(db.(departures := db.departures[d := row]))
  {
    var departures' := db.departures[d := row];
    forall b | 0 <= b < |db.bookings| ensures SnapshotOk(departures', db.bookings[b]) {
      assert SnapshotOk(db.departures, db.bookings[b]);
      if db.bookings[b].releasedAt.None? {
        ReservedCovers(db.tours, db.departures, db.bookings, b);
      }
    }
  }

  lemma CreateDepartureKeeps(db: Db, checkedAt: int, t: nat, start: int, available: nat, active: bool)
    requires RowsOk(db) && CreateDepartureTx(db, checkedAt, t, start, available, active).Commit?
    ensures RowsOk(CreateDepartureTx(db, checkedAt, t, start, available, active).db)
  {
    var db' := CreateDepartureTx(db, checkedAt, t, start, available, active).db;
    var d := |db.departures|;
    HeldNowhere(db, d);
    forall b | 0 <= b < |db.bookings| ensures SnapshotOk(db'.departures, db.bookings[b]) {
      assert SnapshotOk(db.departures, db.bookings[b]);
    }
  }

  lemma HeldNowhere(db: Db, d: nat)
    requires RowsOk(db) && d >= |db.departures|
    ensures Held(db.bookings, d) == 0
  {
    NoneHeld(db.departures, db.bookings, d);
  }

  lemma {:induction false} NoneHeld(departures: seq<Departure>, bookings: seq<Booking>, d: nat)
    requires SnapshotsOk(departures, bookings) && d >= |departures|
    ensures Held(bookings, d) == 0
  {
    if |bookings| > 0 {
      assert SnapshotOk(departures, bookings[|bookings| - 1]);
      NoneHeld(departures, bookings[..|bookings| - 1], d);
    }
  }

  lemma UpdateDepartureKeeps(db: Db, checkedAt: int, t: nat, d: nat, patch: DeparturePatch)
    requires RowsOk(db) && UpdateDepartureTx(db, checkedAt, t, d, patch).Commit?
    ensures RowsOk(UpdateDepartureTx(db, checkedAt, t, d, patch).db)
  {
    DepartureKeeps(db, d, UpdateDepartureTx(db, checkedAt, t, d, patch).db.departures[d]);
  }

  lemma DeleteDepartureKeeps(db: Db, t: nat, d: nat)
    requires RowsOk(db) && DeleteDepartureTx(db, t, d).Commit?
    ensures RowsOk(DeleteDepartureTx(db, t, d).db)
  {
    DepartureKeeps(db, d, DeleteDepartureTx(db, t, d).db.departures[d]);
  }

  lemma CreateTourKeeps(db: Db, input: TourInput)
    requires RowsOk(db) && CreateTourTx(db, input).Commit?
    ensures RowsOk(CreateTourTx(db, input).db)
  {
    var db' := CreateTourTx(db, input).db;
    assert forall d :: 0 <= d < |db.departures| ==>
      SeatOk(db.tours, db.departures[d], Held(db.bookings, d)) ==>
      SeatOk(db'.tours, db'.departures[d], Held(db'.bookings, d));
  }

  lemma UpdateTourKeeps(db: Db, t: nat, patch: TourPatch)
    requires RowsOk(db) && UpdateTourTx(db, t, patch).Commit?
    ensures RowsOk(UpdateTourTx(db, t, patch).db)
  {
    var db' := UpdateTourTx(db, t, patch).db;
    forall d | 0 <= d < |db.departures|
      ensures SeatOk(db'.tours, db'.departures[d], Held(db'.bookings, d))
    {
      assert SeatOk(db.tours, db.departures[d], Held(db.bookings, d));
      if db.departures[d].tour == t && !db.departures[d].deleted {
        RepresentedBounds(db.departures, t, d);
      }
    }
  }

  lemma DeleteTourKeeps(db: Db, t: nat, mediaRemoved: bool)
    requires RowsOk(db) && DeleteTourTx(db, t, mediaRemoved).Commit?
    ensures RowsOk(DeleteTourTx(db, t, mediaRemoved).db)
  {
    var db' := DeleteTourTx(db, t, mediaRemoved).db;
    forall d | 0 <= d < |db.departures|
      ensures SeatOk(db'.tours, db'.departures[d], Held(db'.bookings, d))
    {
      assert SeatOk(db.tours, db.departures[d], Held(db.bookings, d));
    }
    forall b | 0 <= b < |db.bookings| ensures SnapshotOk(db'.departures, db.bookings[b]) {
      assert SnapshotOk(db.departures, db.bookings[b]);
      if db.bookings[b].releasedAt.None? {
        ReservedCovers(db.tours, db.departures, db.bookings, b);
      }
    }
  }

  lemma RatingKeeps(db: Db, t: nat, count: nat, average: Option<nat>)
    requires RowsOk(db) && t < |db.tours|
    ensures RowsOk(db.(tours := db.tours[t := db.tours[t].(ratingCount := count, ratingAverage := average)]))
  {
    var tours' := db.tours[t := db.tours[t].(ratingCount := count, ratingAverage := average)];
    forall d | 0 <= d < |db.departures|
      ensures SeatOk(tours', db.departures[d], Held(db.bookings, d))
    {
      assert SeatOk(db.tours, db.departures[d], Held(db.bookings, d));
    }
  }
}
