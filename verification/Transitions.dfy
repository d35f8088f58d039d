/** Exactly which step moves a booking out of a status, and the run on which `cancelled` is lost. */
module Transitions {
  import opened Rows
  import opened Seats
  import opened BookingTx
  import opened Machine
  import opened Invariant
  import opened RowsKept
  import opened Safety

  // --- leaving pending_payment ---

  /** A fresh webhook whose payment record belongs to booking `b`. */
  predicate Matches(db: Db, e: Event, b: nat) {
    e.id !in db.events && e.booking == b && b in db.payments && db.payments[b].id == e.record
  }

  predicate Confirms(db: Db, step: Step, b: nat)
    requires b < |db.bookings|
  {
    && step.Deliver? && Matches(db, step.event, b)
    && Proves(step.event, b, db.payments[b].checkoutId, db.bookings[b].totalCents)
    && !PaymentIdTaken(db.payments, b, step.event.paymentId)
  }

  predicate Expires(db: Db, now: int, step: Step, b: nat)
    requires b < |db.bookings|
  {
    || (step.Deliver? && step.event.CheckoutExpired? && Matches(db, step.event, b)
        && db.payments[b].checkoutId == Some(step.event.checkoutId))
    || (step.Expire? && step.booking == b && HoldDue(db.bookings[b], now))
  }

  /** Steps that by their kind never write the row of a booking. */
  predicate Elsewhere(step: Step) {
    !(step.Cancel? || step.Deliver? || step.Expire? || step.Advance?)
  }

  lemma ElsewhereUnmoved(w: World, step: Step, b: nat)
    requires Elsewhere(step) && b < |w.db.bookings|
    ensures b < |Apply(w, step).db.bookings| && Apply(w, step).db.bookings[b] == w.db.bookings[b]
  {
  }

  /** Only refund flights of the booking itself write its row. */
  lemma AdvanceUnmoved(w: World, f: Flight, reply: Reply, b: nat)
    requires b < |w.db.bookings|
    requires f.booking != b || !(f.Finalize? || f.FailBooking?)
    ensures b < |ApplyAdvance(w, f, reply).db.bookings|
    ensures ApplyAdvance(w, f, reply).db.bookings[b] == w.db.bookings[b]
  {
  }

  lemma PendingCompleted(w: World, e: Event, b: nat)
    requires RowsOk(w.db) && b < |w.db.bookings| && w.db.bookings[b].status == PendingPayment
    requires !e.CheckoutExpired? && b < |ApplyDeliver(w, e).db.bookings|
    ensures var row' := ApplyDeliver(w, e).db.bookings[b];
      if Confirms(w.db, Deliver(e), b) then row'.status == Confirmed else row' == w.db.bookings[b]
  {
    hide ExpiredTx, SeatsOk, SnapshotsOk, PaymentsOk;
    assert PhaseOk(w.db.bookings[b]);
  }

  lemma PendingExpired(w: World, e: Event, b: nat)
    requires RowsOk(w.db) && b < |w.db.bookings| && w.db.bookings[b].status == PendingPayment
    requires e.CheckoutExpired? && b < |ApplyDeliver(w, e).db.bookings|
    ensures var row' := ApplyDeliver(w, e).db.bookings[b];
      if Expires(w.db, w.now, Deliver(e), b) then row'.status == Expired else row' == w.db.bookings[b]
  {
    hide CompletedTx, RefundedTx, SeatsOk, SnapshotsOk, PaymentsOk;
    assert PhaseOk(w.db.bookings[b]);
    if Expires(w.db, w.now, Deliver(e), b) {
      EventKeeps(w.db, e.id);
      ReleaseCommits(w.db.(events := w.db.events + {e.id}), b, Expired, w.now);
    }
  }

  lemma PendingExpire(w: World, b: nat, c: nat)
    requires RowsOk(w.db) && b < |w.db.bookings| && w.db.bookings[b].status == PendingPayment
    requires b < |ApplyExpire(w, c).db.bookings|
    ensures var row' := ApplyExpire(w, c).db.bookings[b];
      && (row'.status == Expired <==> Expires(w.db, w.now, Expire(c), b))
      && (row'.status == Expired || row' == w.db.bookings[b])
  {
    assert PhaseOk(w.db.bookings[b]);
    if Expires(w.db, w.now, Expire(c), b) {
      ReleaseCommits(w.db, b, Expired, w.now);
    }
  }

  lemma PendingCancel(w: World, user: nat, c: nat, b: nat)
    requires b < |w.db.bookings| && w.db.bookings[b].status == PendingPayment
    requires b < |ApplyCancel(w, user, c).db.bookings|
    ensures ApplyCancel(w, user, c).db.bookings[b] == w.db.bookings[b]
  {
  }

  lemma PendingNotInRefund(w: World, f: Flight, b: nat)
    requires FlightsOk(w) && f in w.flights
    requires b < |w.db.bookings| && w.db.bookings[b].status == PendingPayment
    ensures f.booking != b || !(f.Finalize? || f.FailBooking?)
  {
    assert FlightOk(w.db, w.sessions, w.refunds, f);
  }

  /** pending_payment is left in one step to confirmed exactly by a fresh, paid and matching webhook,
      to expired exactly by a matching expiry webhook or a due hold, and to nothing else.
    */
  lemma PendingLeavesExactly(w: World, step: Step, b: nat)
    requires Inv(w) && b < |w.db.bookings| && w.db.bookings[b].status == PendingPayment
    ensures b < |Apply(w, step).db.bookings|
    ensures var row' := Apply(w, step).db.bookings[b];
      && (row'.status == Confirmed <==> Confirms(w.db, step, b))
      && (row'.status == Expired <==> Expires(w.db, w.now, step, b))
      && (row'.status == Confirmed || row'.status == Expired || row' == w.db.bookings[b])
  {
    hide RowsOk, OpsOk, ReviewStateOk, ApplyDeliver, ApplyCancel, ApplyExpire, ApplyAdvance;
    StepKeeps(w, step);
    assert b < |Apply(w, step).db.bookings|;
    hide Later;
    match step {
      case Deliver(e) =>
        if e.CheckoutExpired? {
          PendingExpired(w, e, b);
        } else {
          PendingCompleted(w, e, b);
        }
      case Expire(c) => PendingExpire(w, b, c);
      case Cancel(user, c) => PendingCancel(w, user, c, b);
      case Advance(f, reply) => AdvanceElsewhere(w, f, reply, b);
      case _ => ElsewhereUnmoved(w, step, b);
    }
  }

  lemma AdvanceElsewhere(w: World, f: Flight, reply: Reply, b: nat)
    requires Inv(w) && b < |w.db.bookings| && w.db.bookings[b].status == PendingPayment
    ensures b < |ApplyAdvance(w, f, reply).db.bookings|
    ensures ApplyAdvance(w, f, reply).db.bookings[b] == w.db.bookings[b]
  {
    hide RowsOk, ReviewStateOk;
    if f in w.flights {
      PendingNotInRefund(w, f, b);
      AdvanceUnmoved(w, f, reply, b);
    }
  }

  // --- leaving cancelled ---

  /** The only step that takes a booking out of `cancelled`: a refund attempt that had failed writes
      its late verdict after a webhook or a reconciliation finished the cancellation.
    */
  predicate LateFailure(w: World, step: Step, b: nat) {
    step == Advance(FailBooking(b), Done) && FailBooking(b) in w.flights
  }

  lemma CancelledDeliver(w: World, e: Event, b: nat)
    requires RowsOk(w.db) && b < |w.db.bookings| && w.db.bookings[b].status == Cancelled
    requires b < |ApplyDeliver(w, e).db.bookings|
    ensures ApplyDeliver(w, e).db.bookings[b] == w.db.bookings[b]
  {
    assert PhaseOk(w.db.bookings[b]);
  }

  lemma CancelledCancel(w: World, user: nat, c: nat, b: nat)
    requires b < |w.db.bookings| && w.db.bookings[b].status == Cancelled
    requires b < |ApplyCancel(w, user, c).db.bookings|
    ensures ApplyCancel(w, user, c).db.bookings[b] == w.db.bookings[b]
  {
  }

  lemma CancelledExpire(w: World, c: nat, b: nat)
    requires b < |w.db.bookings| && w.db.bookings[b].status == Cancelled
    requires b < |ApplyExpire(w, c).db.bookings|
    ensures ApplyExpire(w, c).db.bookings[b] == w.db.bookings[b]
  {
  }

  lemma CancelledAdvance(w: World, f: Flight, reply: Reply, b: nat)
    requires b < |w.db.bookings| && w.db.bookings[b].status == Cancelled
    requires b < |ApplyAdvance(w, f, reply).db.bookings|
    ensures var row' := ApplyAdvance(w, f, reply).db.bookings[b];
      if LateFailure(w, Advance(f, reply), b) then row'.status == CancellationFailed
      else row' == w.db.bookings[b]
  {
    if f.booking != b || !(f.Finalize? || f.FailBooking?) {
      AdvanceUnmoved(w, f, reply, b);
    }
  }

  lemma CancelledLeavesExactly(w: World, step: Step, b: nat)
    requires Inv(w) && b < |w.db.bookings| && w.db.bookings[b].status == Cancelled
    ensures b < |Apply(w, step).db.bookings|
    ensures var row' := Apply(w, step).db.bookings[b];
      && (row'.status != Cancelled <==> LateFailure(w, step, b))
      && (row'.status != Cancelled ==> row'.status == CancellationFailed && row'.releasedAt.Some?)
  {
    hide ReviewStateOk, OpsOk, ApplyDeliver, ApplyCancel, ApplyExpire, ApplyAdvance;
    StepKeeps(w, step);
    hide RowsOk;
    match step {
      case Deliver(e) => CancelledDeliver(w, e, b);
      case Expire(c) => CancelledExpire(w, c, b);
      case Cancel(user, c) => CancelledCancel(w, user, c, b);
      case Advance(f, reply) => CancelledAdvance(w, f, reply, b);
      case _ => ElsewhereUnmoved(w, step, b);
    }
  }
}
