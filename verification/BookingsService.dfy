/** The bookings service writing its rows one statement at a time, against the transactions. */
module BookingsService {
  import opened Rows
  import opened Database
  import opened BookingTx
  import opened Machine
  import opened Jobs
  import opened Invariant
  import opened Promises
  import opened BookingAnswers

  class Bookings {
    const tables: Tables
    const config: Config

    constructor (tables: Tables, config: Config)
      ensures this.tables == tables && this.config == config
    {
      this.tables, this.config := tables, config;
    }

    method Create(now: int, verified: bool, key: ClientKey, request: Request) returns (r: Result<nat>)
      modifies tables
      ensures Ran(CreateTx(old(tables.Rows()), config, now, verified, key, request),
                  old(tables.Rows()), tables.Rows(), r)
      ensures CatalogOk(old(tables.Rows())) && key !in old(tables.idempotency) ==>
        && (r.Ok? <==> MayBook(old(tables.Rows()), now, verified, key, request))
        && (r.Ok? ==> Booked(old(tables.Rows()), config, now, key, request, tables.Rows()))
    {
      MayBookExactly(tables.Rows(), config, now, verified, key, request);
      hide MayBook, Booked, CatalogOk;
      if !verified {
        return Err(Unverified);
      }
      if !ValidKey(key.key) || request.travelers == [] {
        return Err(InvalidRequest);
      }
      if key in tables.idempotency {
        var replay := tables.idempotency[key];
        if replay.request != request {
          return Err(KeyReused);
        }
        return Ok(replay.booking);
      }
      if !Bookable(tables.Rows(), now, request.departure) {
        return Err(NotFound);
      }
      var departure := tables.departures[request.departure];
      var tour := tables.tours[departure.tour];
      var quantity := |request.travelers|;
      if quantity > tour.maximum || quantity > departure.available {
        return Err(InsufficientSpots);
      }
      var id := |tables.bookings|;
      var row := BookingRow(key.user, request.departure, departure, tour, quantity, config, now);
      tables.departures := tables.departures[request.departure := departure.(
        available := departure.available - quantity,
        reserved := departure.reserved + quantity)];
      tables.bookings := tables.bookings + [row];
      if row.totalCents != 0 {
        tables.payments := tables.payments[id := NewPayment(|tables.payments|, row.totalCents)];
      }
      tables.idempotency := tables.idempotency[key := Replay(request, id)];
      return Ok(id);
    }

    method Release(now: int, b: nat, status: Status) returns (r: Result<Receipt>)
      requires b < |tables.bookings|
      modifies tables
      ensures Ran(BookingTx.Release(old(tables.Rows()), b, status, now),
                  old(tables.Rows()), tables.Rows(), r)
      ensures ReleasePromise(old(tables.Rows()), b, status, r, tables.Rows())
    {
      ReleasePromised(tables.Rows(), b, status, now);
      hide ReleasePromise;
      var row := tables.bookings[b];
      if row.releasedAt.Some? {
        return Ok(Receipt(true, false));
      }
      if row.departure >= |tables.departures| || tables.departures[row.departure].reserved < row.quantity {
        return Err(InventoryInconsistent);
      }
      var departure := tables.departures[row.departure];
      tables.departures := tables.departures[row.departure := departure.(
        available := departure.available + row.quantity,
        reserved := departure.reserved - row.quantity)];
      tables.bookings := tables.bookings[b := ReleasedRow(row, status, now)];
      return Ok(Receipt(true, true));
    }

    method Cancel(now: int, user: nat, b: nat) returns (r: Result<Cancellation>)
      modifies tables
      ensures Ran(CancelTx(old(tables.Rows()), config, now, user, b), old(tables.Rows()), tables.Rows(), r)
      ensures CancelPromise(old(tables.Rows()), user, b, r, tables.Rows())
      ensures RowsOk(old(tables.Rows())) ==>
        CancelAnswer(old(tables.Rows()), config, now, user, b, r, tables.Rows())
    {
      CancelAnswered(tables.Rows(), config, now, user, b);
      hide CancelAnswer, RowsOk;
      CancelPromised(tables.Rows(), config, now, user, b);
      hide CancelPromise, ReleasePromise;
      if b >= |tables.bookings| || tables.bookings[b].user != user {
        return Err(NotFound);
      }
      var row := tables.bookings[b];
      if row.status == Cancelled {
        return Ok(Cancellation(false, false));
      }
      if row.status == CancellationPending || row.status == CancellationFailed {
        return Ok(Cancellation(true, false));
      }
      if row.status != Confirmed {
        return Err(NotCancellable);
      }
      if now > row.start - config.cutoffMs {
        return Err(CutoffPassed);
      }
      if row.totalCents == 0 {
        var receipt := Release(now, b, Cancelled);
        match receipt {
          case Ok(value) => return Ok(Cancellation(false, value.returned));
          case Err(error) => return Err(error);
        }
      }
      tables.bookings := tables.bookings[b := row.(status := CancellationPending,
                                                  cancellationRequestedAt := Some(now))];
      if b in tables.payments {
        tables.payments := tables.payments[b := tables.payments[b].(status := RefundPending)];
      }
      return Ok(Cancellation(true, false));
    }

    /** Inserts the event row first and rolls it back when a later check throws. */
    method ProcessEvent(now: int, e: Event) returns (r: Result<Receipt>)
      modifies tables
      ensures Ran(DeliverTx(old(tables.Rows()), now, e), old(tables.Rows()), tables.Rows(), r)
      ensures DeliverPromise(old(tables.Rows()), e, r, tables.Rows())
    {
      DeliverPromised(tables.Rows(), now, e);
      hide DeliverPromise, ReleasePromise;
      var before := tables.Rows();
      if e.id in tables.events {
        return Ok(Receipt(false, false));
      }
      tables.events := tables.events + {e.id};
      var b := e.booking;
      if b >= |tables.bookings| || b !in tables.payments || tables.payments[b].id != e.record {
        tables.Rollback(before);
        return Err(EventMismatch);
      }
      match e {
        case CheckoutCompleted(_, _, _, _, _, _, _, _) => r := Complete(now, e);
        case CheckoutExpired(_, _, _, checkoutId) =>
          if tables.bookings[b].status != PendingPayment || Some(checkoutId) != tables.payments[b].checkoutId {
            return Ok(Receipt(false, false));
          }
          r := Release(now, b, Expired);
        case RefundCompleted(_, _, _, _, _, _, _) => r := Refund(now, e);
      }
      if r.Err? {
        tables.Rollback(before);
      }
    }

    method Complete(now: int, e: Event) returns (r: Result<Receipt>)
      requires e.CheckoutCompleted? && e.booking < |tables.bookings| && e.booking in tables.payments
      modifies tables
      ensures Ran(CompletedTx(old(tables.Rows()), now, e), old(tables.Rows()), tables.Rows(), r)
    {
      var b := e.booking;
      var row, payment := tables.bookings[b], tables.payments[b];
      if row.status != PendingPayment {
        return Ok(Receipt(false, false));
      }
      if !e.paid || Some(e.checkoutId) != payment.checkoutId
         || e.amountCents != row.totalCents || e.currency != CURRENCY {
        return Err(EventMismatch);
      }
      if PaymentIdTaken(tables.payments, b, e.paymentId) {
        return Err(UniqueViolation);
      }
      tables.bookings := tables.bookings[b := row.(status := Confirmed, confirmedAt := Some(now))];
      tables.payments := tables.payments[b := payment.(status := Paid, paymentId := Some(e.paymentId))];
      return Ok(Receipt(true, false));
    }

    method Refund(now: int, e: Event) returns (r: Result<Receipt>)
      requires e.RefundCompleted? && e.booking < |tables.bookings| && e.booking in tables.payments
      modifies tables
      ensures match RefundedTx(old(tables.Rows()), now, e)
        case Commit(db, receipt) => tables.Rows() == db && r == Ok(receipt)
        case Abort(error) => r == Err(error)
    {
      hide ReleasePromise;
      var b := e.booking;
      var row, payment := tables.bookings[b], tables.payments[b];
      if !RefundOpen(row.status) {
        return Ok(Receipt(false, false));
      }
      if Some(e.paymentId) != payment.paymentId
         || e.amountCents != row.totalCents || e.currency != CURRENCY {
        return Err(EventMismatch);
      }
      var clash := e.refundId.Some? && RefundIdTaken(tables.payments, b, e.refundId.value);
      if clash {
        return Err(UniqueViolation);
      }
      r := Release(now, b, Cancelled);
      if r.Ok? {
        tables.payments := tables.payments[b := payment.(
          status := Refunded,
          refundId := if e.refundId.Some? then e.refundId else payment.refundId)];
      }
    }

    method ExpireOne(now: int, b: nat) returns (r: Result<Receipt>)
      modifies tables
      ensures Ran(ExpireTx(old(tables.Rows()), now, b), old(tables.Rows()), tables.Rows(), r)
    {
      hide ReleasePromise;
      if b >= |tables.bookings| || !HoldDue(tables.bookings[b], now) {
        return Ok(Receipt(false, false));
      }
      r := Release(now, b, Expired);
    }

    method FinalizeRefund(now: int, b: nat, refundId: string, amount: int) returns (r: Result<Receipt>)
      modifies tables
      ensures Ran(FinalizeTx(old(tables.Rows()), now, b, refundId, amount),
                  old(tables.Rows()), tables.Rows(), r)
      ensures FinalizePromise(old(tables.Rows()), b, r, tables.Rows())
    {
      FinalizePromised(tables.Rows(), now, b, refundId, amount);
      hide FinalizePromise, ReleasePromise;
      if b >= |tables.bookings| || b !in tables.payments || tables.bookings[b].status == Cancelled {
        return Ok(Receipt(false, false));
      }
      if amount != tables.bookings[b].totalCents {
        return Err(RefundAmountMismatch);
      }
      if RefundIdTaken(tables.payments, b, refundId) {
        return Err(UniqueViolation);
      }
      r := Release(now, b, Cancelled);
      if r.Ok? {
        tables.payments := tables.payments[b := tables.payments[b].(
          status := Refunded, refundId := Some(refundId))];
      }
    }

    /** The expiry job: selects at most `limit` due holds, then expires each in its own transaction. */
    method ExpireDue(now: int, limit: nat) returns (inspected: nat, changed: nat, threw: bool)
      modifies tables
      ensures var ids := Take(Due(old(tables.bookings), now), limit);
        && inspected == |ids|
        && ExpireAll(old(tables.Rows()), now, ids) == Batch(tables.Rows(), changed, threw)
    {
      var due := [];
      var b := 0;
      while b < |tables.bookings|
        invariant 0 <= b <= |tables.bookings|
        invariant tables.bookings == old(tables.bookings)
        invariant due == Due(tables.bookings[..b], now)
      {
        assert tables.bookings[..b + 1][..b] == tables.bookings[..b];
        if HoldDue(tables.bookings[b], now) {
          due := due + [b];
        }
        b := b + 1;
      }
      assert tables.bookings[..b] == tables.bookings;
      due := Take(due, limit);
      inspected, changed, threw := |due|, 0, false;
      for i := 0 to |due|
        invariant ExpireAll(old(tables.Rows()), now, due[..i]) == Batch(tables.Rows(), changed, threw)
        invariant !threw
      {
        assert due[..i + 1][..i] == due[..i];
        var r := ExpireOne(now, due[i]);
        match r {
          case Ok(receipt) => changed := changed + if receipt.applied then 1 else 0;
          case Err(_) =>
            threw := true;
            StoppedStays(old(tables.Rows()), now, due, i + 1);
            return;
        }
      }
      assert due[..|due|] == due;
    }

    /** openCheckout with nothing in between; the provider's answer comes from outside. */
    method OpenCheckout(user: nat, b: nat, answer: Option<Session>) returns (threw: bool)
      modifies tables
      ensures tables.Rows() == OpenCheckoutRows(old(tables.Rows()), user, b, answer)
      ensures threw == OpenCheckoutThrows(old(tables.Rows()), user, b, answer)
      ensures CheckoutPromise(old(tables.Rows()), user, b, threw, tables.Rows())
    {
      CheckoutPromised(tables.Rows(), user, b, answer);
      hide CheckoutPromise;
      if b >= |tables.bookings| || tables.bookings[b].user != user {
        return true;
      }
      if tables.bookings[b].totalCents == 0 {
        return false;
      }
      if b !in tables.payments {
        return true;
      }
      var payment := tables.payments[b];
      if payment.status == CheckoutOpen && payment.checkoutUrl.Some? {
        return false;
      }
      if answer.None? || OpenedClashes(tables.payments, b, answer.value) {
        return true;
      }
      tables.payments := tables.payments[b := OpenedPayment(payment, answer.value)];
      return false;
    }

    method RecoverCheckouts(now: int, limit: nat, answer: nat -> Option<Session>)
      returns (inspected: nat, changed: nat)
      modifies tables
      ensures var ids := Take(Recoverables(old(tables.Rows()), now, |old(tables.bookings)|), limit);
        && inspected == |ids|
        && (forall i :: 0 <= i < |ids| ==> ids[i] < |old(tables.bookings)|)
        && RecoverAll(old(tables.Rows()), ids, answer) == Batch(tables.Rows(), changed, false)
    {
      hide CheckoutPromise;
      var rows := Take(Recoverables(tables.Rows(), now, |tables.bookings|), limit);
      RecoverablesExist(tables.Rows(), now, |tables.bookings|);
      inspected, changed := |rows|, 0;
      for i := 0 to |rows|
        invariant forall j :: 0 <= j < |rows| ==> rows[j] < |old(tables.bookings)|
        invariant tables.bookings == old(tables.bookings)
        invariant RecoverAll(old(tables.Rows()), rows[..i], answer) == Batch(tables.Rows(), changed, false)
      {
        assert rows[..i + 1][..i] == rows[..i];
        var threw := OpenCheckout(tables.bookings[rows[i]].user, rows[i], answer(rows[i]));
        if !threw {
          changed := changed + 1;
        }
      }
      assert rows[..|rows|] == rows;
    }

    method FailRefund(b: nat)
      requires b in tables.payments
      modifies tables
      ensures tables.Rows() == RefundFailedRows(old(tables.Rows()), b)
    {
      tables.payments := tables.payments[b := tables.payments[b].(status := RefundFailed)];
      if b < |tables.bookings| {
        tables.bookings := tables.bookings[b := tables.bookings[b].(status := CancellationFailed)];
      }
    }

    /** refund with nothing in between; the provider's answer comes from outside. */
    method RefundBooking(now: int, b: nat, answer: Reply)
      modifies tables
      ensures tables.Rows() == RefundRows(old(tables.Rows()), now, b, answer)
      ensures RefundPromise(old(tables.Rows()), b, tables.Rows())
    {
      RefundPromised(tables.Rows(), now, b, answer);
      hide RefundPromise;
      if b !in tables.payments || tables.payments[b].paymentId.None? {
        return;
      }
      var payment := tables.payments[b];
      if !answer.RefundAnswer? || RefundIdTaken(tables.payments, b, answer.refundId) {
        FailRefund(b);
        return;
      }
      tables.payments := tables.payments[b := RefundedPayment(payment, answer.refundId, answer.outcome)];
      if answer.outcome.Succeeded? {
        var r := FinalizeRefund(now, b, answer.refundId, payment.amountCents);
        if r.Err? {
          FailRefund(b);
        }
      }
    }

    method ReconcileRefunds(now: int, limit: nat, answer: Selected -> Reply)
      returns (inspected: nat, changed: nat)
      modifies tables
      ensures var rows := TakeSelected(Unsettled(old(tables.Rows()), |old(tables.bookings)|), limit);
        && inspected == |rows|
        && ReconcileAll(old(tables.Rows()), now, rows, answer) == Batch(tables.Rows(), changed, false)
    {
      var rows := TakeSelected(Unsettled(tables.Rows(), |tables.bookings|), limit);
      inspected, changed := |rows|, 0;
      for i := 0 to |rows|
        invariant ReconcileAll(old(tables.Rows()), now, rows[..i], answer) == Batch(tables.Rows(), changed, false)
      {
        assert rows[..i + 1][..i] == rows[..i];
        var settled := Reconcile(now, rows[i], answer(rows[i]));
        if settled {
          changed := changed + 1;
        }
      }
      assert rows[..|rows|] == rows;
    }

    method Reconcile(now: int, row: Selected, answer: Reply) returns (settled: bool)
      modifies tables
      ensures ReconcileOne(old(tables.Rows()), now, row, answer) == Settled(tables.Rows(), settled)
    {
      hide RefundPromise, FinalizePromise;
      if row.refundId.None? {
        RefundBooking(now, row.booking, answer);
        return false;
      }
      if answer.Inspection? && answer.outcome.Succeeded? {
        var r := FinalizeRefund(now, row.booking, row.refundId.value, answer.amountCents);
        return r.Ok?;
      }
      if answer.Inspection? && answer.outcome.Failed? && row.booking in tables.payments {
        tables.payments := tables.payments[row.booking := tables.payments[row.booking].(status := RefundFailed)];
      }
      return false;
    }
  }
}
