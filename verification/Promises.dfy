/** What one call of a service leaves its caller with, beyond the transaction it runs. */
module Promises {
  import opened Rows
  import opened BookingTx
  import opened CatalogTx
  import opened Invariant
  import opened RowsKept
  import opened Seats
  import opened Machine
  import opened Jobs
  import opened BatchJobs

  /** Seats only move between available and reserved: every departure keeps their total and all else. */
  ghost predicate SpotsStand(before: Db, after: Db) {
    && |after.departures| == |before.departures|
    && forall d :: 0 <= d < |before.departures| ==>
         && after.departures[d] == before.departures[d].(available := after.departures[d].available,
                                                         reserved := after.departures[d].reserved)
         && after.departures[d].available + after.departures[d].reserved
            == before.departures[d].available + before.departures[d].reserved
  }

  /** No customer notices: bookings and payments stay, and no departure's reserved seats move. */
  ghost predicate CustomersStand(before: Db, after: Db) {
    && after.bookings == before.bookings && after.payments == before.payments
    && |before.departures| <= |after.departures|
    && forall d :: 0 <= d < |before.departures| ==>
         && after.departures[d].tour == before.departures[d].tour
         && after.departures[d].reserved == before.departures[d].reserved
  }

  ghost predicate BookingCallKeeps(before: Db, after: Db) {
    SpotsStand(before, after) && (RowsOk(before) ==> RowsOk(after))
  }

  ghost predicate CatalogCallKeeps(before: Db, after: Db) {
    CustomersStand(before, after) && (RowsOk(before) ==> RowsOk(after))
  }

  lemma CatalogKeepsSame(db: Db)
    ensures CatalogCallKeeps(db, db)
  {
  }

  // --- bookings ---

  lemma ReleaseStands(db: Db, b: nat, status: Status, now: int)
    requires b < |db.bookings|
    ensures Release(db, b, status, now).Commit? ==> SpotsStand(db, Release(db, b, status, now).db)
  {
  }

  lemma SpotsSame(db: Db)
    ensures SpotsStand(db, db)
  {
  }

  /** The ways a booking may give its seats back. */
  predicate MayRelease(row: Booking, status: Status) {
    || (status == Cancelled && Purchased(row.status))
    || (status == Expired && row.totalCents > 0)
  }

  /** Under the invariant a release never fails, and returns seats exactly when they were still held. */
  ghost predicate ReleasePromise(db: Db, b: nat, status: Status, r: Result<Receipt>, db': Db) {
    && SpotsStand(db, db')
    && b < |db.bookings| && b < |db'.bookings|
    && (RowsOk(db) ==>
          && r.Ok? && (r.value.returned <==> db.bookings[b].releasedAt.None?)
          && db'.bookings[b].releasedAt.Some?)
    && (RowsOk(db) && MayRelease(db.bookings[b], status) ==> RowsOk(db'))
  }

  lemma ReleasePromised(db: Db, b: nat, status: Status, now: int)
    requires b < |db.bookings|
    ensures match Release(db, b, status, now)
      case Commit(db', receipt) => ReleasePromise(db, b, status, Ok(receipt), db')
      case Abort(error) => ReleasePromise(db, b, status, Err(error), db)
  {
    ReleaseStands(db, b, status, now);
    SpotsSame(db);
    hide RowsOk, SpotsStand;
    if RowsOk(db) {
      ReleaseCommits(db, b, status, now);
      if MayRelease(db.bookings[b], status) {
        ReleaseKeeps(db, b, status, now);
      }
    }
  }

  /** An accepted cancellation leaves the customer's own booking closed, and asks for a refund exactly when
      it is not cancelled yet.
    */
  ghost predicate CancelPromise(db: Db, user: nat, b: nat, r: Result<Cancellation>, db': Db) {
    && BookingCallKeeps(db, db')
    && (RowsOk(db) && r.Ok? ==>
          && b < |db'.bookings| && db'.bookings[b].user == user && Refunding(db'.bookings[b].status)
          && (r.value.refund <==> RefundOpen(db'.bookings[b].status))
          && (r.value.returned ==> db'.bookings[b].releasedAt.Some? && db'.bookings[b].totalCents == 0))
  }

  lemma CancelPromised(db: Db, config: Config, now: int, user: nat, b: nat)
    ensures match CancelTx(db, config, now, user, b)
      case Commit(db', value) => CancelPromise(db, user, b, Ok(value), db')
      case Abort(error) => CancelPromise(db, user, b, Err(error), db)
  {
    hide SeatsOk, SnapshotsOk, PaymentsOk;
    SpotsSame(db);
    if b < |db.bookings| {
      ReleaseStands(db, b, Cancelled, now);
      hide SpotsStand, Release;
      if RowsOk(db) && CancelTx(db, config, now, user, b).Commit? {
        CancelKeeps(db, config, now, user, b);
        CancelledRow(db, config, now, user, b);
      }
    }
  }

  lemma CancelledRow(db: Db, config: Config, now: int, user: nat, b: nat)
    requires b < |db.bookings| && PhaseOk(db.bookings[b])
    ensures var tx := CancelTx(db, config, now, user, b);
      tx.Commit? ==>
        && b < |tx.db.bookings| && tx.db.bookings[b].user == user && Refunding(tx.db.bookings[b].status)
        && (tx.value.refund <==> RefundOpen(tx.db.bookings[b].status))
        && (tx.value.returned ==> tx.db.bookings[b].releasedAt.Some? && tx.db.bookings[b].totalCents == 0)
  {
  }

  /** An acknowledged webhook is remembered, and reports returned seats exactly when its booking's release
      mark appears.
    */
  ghost predicate DeliverPromise(db: Db, e: Event, r: Result<Receipt>, db': Db) {
    && BookingCallKeeps(db, db')
    && |db'.bookings| == |db.bookings|
    && (r.Ok? ==> e.id in db'.events)
    && (r.Ok? && e.booking < |db.bookings| ==>
          (r.value.returned <==> db.bookings[e.booking].releasedAt.None?
                                 && db'.bookings[e.booking].releasedAt.Some?))
  }

  lemma DeliverPromised(db: Db, now: int, e: Event)
    ensures match DeliverTx(db, now, e)
      case Commit(db', receipt) => DeliverPromise(db, e, Ok(receipt), db')
      case Abort(error) => DeliverPromise(db, e, Err(error), db)
  {
    hide RowsOk;
    SpotsSame(db);
    DeliverStands(db, now, e);
    hide SpotsStand;
    if RowsOk(db) && DeliverTx(db, now, e).Commit? {
      DeliverKeeps(db, now, e);
    }
  }

  lemma DeliverStands(db: Db, now: int, e: Event)
    ensures DeliverTx(db, now, e).Commit? ==> SpotsStand(db, DeliverTx(db, now, e).db)
  {
    SpotsSame(db);
    if e.booking < |db.bookings| {
      var db1 := db.(events := db.events + {e.id});
      ReleaseStands(db1, e.booking, Cancelled, now);
      ReleaseStands(db1, e.booking, Expired, now);
      hide Release;
    }
  }

  /** A bought booking whose refund is finalized has its seats back, and they come back once. */
  ghost predicate FinalizePromise(db: Db, b: nat, r: Result<Receipt>, db': Db) {
    && SpotsStand(db, db')
    && |db'.bookings| == |db.bookings|
    && (RowsOk(db) && b < |db.bookings| && Purchased(db.bookings[b].status) ==>
          && RowsOk(db')
          && (r.Ok? && b in db.payments ==>
                && db'.bookings[b].releasedAt.Some?
                && (r.value.returned <==> db.bookings[b].releasedAt.None?)))
  }

  lemma FinalizePromised(db: Db, now: int, b: nat, refundId: string, amount: int)
    ensures match FinalizeTx(db, now, b, refundId, amount)
      case Commit(db', receipt) => FinalizePromise(db, b, Ok(receipt), db')
      case Abort(error) => FinalizePromise(db, b, Err(error), db)
  {
    hide SeatsOk, SnapshotsOk, PaymentsOk;
    SpotsSame(db);
    if b < |db.bookings| {
      ReleaseStands(db, b, Cancelled, now);
      hide SpotsStand;
      if RowsOk(db) && Purchased(db.bookings[b].status) && FinalizeTx(db, now, b, refundId, amount).Commit? {
        FinalizeKeeps(db, now, b, refundId, amount);
        assert PhaseOk(db.bookings[b]);
      }
    }
  }

  /** Whoever asks for a checkout and gets an answer can pay, unless there is nothing to pay; a failed call
      leaves no trace.
    */
  ghost predicate CheckoutPromise(db: Db, user: nat, b: nat, threw: bool, db': Db) {
    && (RowsOk(db) ==> RowsOk(db'))
    && db' == db.(payments := db'.payments)
    && (forall c :: c in db.payments && c != b ==> c in db'.payments && db'.payments[c] == db.payments[c])
    && (threw ==> db' == db)
    && (!threw ==>
          && b < |db.bookings| && db.bookings[b].user == user
          && (db.bookings[b].totalCents > 0 ==>
                b in db'.payments && db'.payments[b].status == CheckoutOpen && db'.payments[b].checkoutUrl.Some?))
  }

  lemma CheckoutPromised(db: Db, user: nat, b: nat, answer: Option<Session>)
    ensures CheckoutPromise(db, user, b, OpenCheckoutThrows(db, user, b, answer),
                            OpenCheckoutRows(db, user, b, answer))
  {
    hide RowsOk;
    if RowsOk(db) && b in db.payments && answer.Some? {
      PaymentKeeps(db, b, OpenedPayment(db.payments[b], answer.value));
    }
  }

  /** A refund never moves another booking, nor a seat unless it ends the cancellation. */
  ghost predicate RefundPromise(db: Db, b: nat, db': Db) {
    && SpotsStand(db, db')
    && (RowsOk(db) && b < |db.bookings| && RefundOpen(db.bookings[b].status) ==>
          && RowsOk(db')
          && |db'.bookings| == |db.bookings|
          && (forall c :: 0 <= c < |db.bookings| && c != b ==> db'.bookings[c] == db.bookings[c])
          && Refunding(db'.bookings[b].status)
          && (db'.departures == db.departures || db'.bookings[b].status == Cancelled))
  }

  lemma RefundStands(db: Db, now: int, b: nat, answer: Reply)
    ensures SpotsStand(db, RefundRows(db, now, b, answer))
    ensures b < |db.bookings| && RefundRows(db, now, b, answer).departures != db.departures ==>
      b < |RefundRows(db, now, b, answer).bookings|
      && RefundRows(db, now, b, answer).bookings[b].status == Cancelled
  {
    SpotsSame(db);
    if b < |db.bookings| && b in db.payments && answer.RefundAnswer? {
      ReleaseStands(SetPayment(db, b, RefundedPayment(db.payments[b], answer.refundId, answer.outcome)), b,
                    Cancelled, now);
      hide SpotsStand;
    }
  }

  lemma RefundPromised(db: Db, now: int, b: nat, answer: Reply)
    ensures RefundPromise(db, b, RefundRows(db, now, b, answer))
  {
    hide RowsOk, SpotsStand;
    RefundStands(db, now, b, answer);
    if RowsOk(db) && b < |db.bookings| && RefundOpen(db.bookings[b].status) {
      RefundRowsKeeps(db, now, b, answer);
      RefundSettles(db, now, b, answer);
      hide RefundRows;
    }
  }

  // --- departures and tours ---

  lemma CreateDepartureKeepsAll(db: Db, checkedAt: int, t: nat, start: int, available: nat, active: bool)
    ensures var tx := CreateDepartureTx(db, checkedAt, t, start, available, active);
      tx.Commit? ==> CatalogCallKeeps(db, tx.db)
  {
    hide RowsOk;
    if RowsOk(db) && CreateDepartureTx(db, checkedAt, t, start, available, active).Commit? {
      CreateDepartureKeeps(db, checkedAt, t, start, available, active);
    }
  }

  lemma UpdateDepartureKeepsAll(db: Db, checkedAt: int, t: nat, d: nat, patch: DeparturePatch)
    ensures var tx := UpdateDepartureTx(db, checkedAt, t, d, patch); tx.Commit? ==> CatalogCallKeeps(db, tx.db)
  {
    hide RowsOk;
    if RowsOk(db) && UpdateDepartureTx(db, checkedAt, t, d, patch).Commit? {
      UpdateDepartureKeeps(db, checkedAt, t, d, patch);
    }
  }

  lemma DeleteDepartureKeepsAll(db: Db, t: nat, d: nat)
    ensures var tx := DeleteDepartureTx(db, t, d); tx.Commit? ==> CatalogCallKeeps(db, tx.db)
  {
    hide RowsOk;
    if RowsOk(db) && DeleteDepartureTx(db, t, d).Commit? {
      DeleteDepartureKeeps(db, t, d);
    }
  }

  lemma UpdateTourKeepsAll(db: Db, t: nat, patch: TourPatch)
    ensures var tx := UpdateTourTx(db, t, patch); tx.Commit? ==> CatalogCallKeeps(db, tx.db)
  {
    hide RowsOk;
    if RowsOk(db) && UpdateTourTx(db, t, patch).Commit? {
      UpdateTourKeeps(db, t, patch);
    }
  }

  lemma DeleteTourKeepsAll(db: Db, t: nat, mediaRemoved: bool)
    ensures var tx := DeleteTourTx(db, t, mediaRemoved); tx.Commit? ==> CatalogCallKeeps(db, tx.db)
  {
    hide RowsOk;
    if RowsOk(db) && DeleteTourTx(db, t, mediaRemoved).Commit? {
      DeleteTourKeeps(db, t, mediaRemoved);
    }
  }
}
