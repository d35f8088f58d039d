/** Payments that arrive after their booking has stopped waiting for them. */
module LatePayment {
  import opened Rows
  import opened BookingTx
  import opened Machine
  import opened Invariant
  import opened BookingSteps
  import opened Safety
  import opened Jobs
  import opened CancelledLost

  // --- what a paid event does ---

  /** A fresh completed event for a booking, paid in full for its stored checkout. */
  predicate PaidInFull(db: Db, e: Event) {
    && e.CheckoutCompleted? && e.id !in db.events
    && e.booking < |db.bookings| && e.booking in db.payments && db.payments[e.booking].id == e.record
    && Proves(e, e.booking, db.payments[e.booking].checkoutId, db.bookings[e.booking].totalCents)
  }

  /** The booking still waits for its payment and nobody else has this provider payment. */
  predicate Awaited(db: Db, e: Event)
    requires e.CheckoutCompleted? && e.booking < |db.bookings|
  {
    db.bookings[e.booking].status == PendingPayment && !PaymentIdTaken(db.payments, e.booking, e.paymentId)
  }

  function ConfirmedRows(db: Db, now: int, e: Event): Db
    requires PaidInFull(db, e)
  {
    var b := e.booking;
    db.(bookings := db.bookings[b := db.bookings[b].(status := Confirmed, confirmedAt := Some(now))],
        payments := db.payments[b := db.payments[b].(status := Paid, paymentId := Some(e.paymentId))])
  }

  /** A paid event changes the rows exactly when its booking is still pending and its provider payment is
      its own; it then confirms it. Otherwise every row stays, and unless the payment id clashes the event
      is used up.
    */
  lemma PaidConfirmsExactly(w: World, e: Event)
    requires PaidInFull(w.db, e)
    ensures var w' := Apply(w, Deliver(e));
      && (w'.db.(events := w.db.events) != w.db <==> Awaited(w.db, e))
      && (Awaited(w.db, e) ==> w'.db.(events := w.db.events) == ConfirmedRows(w.db, w.now, e))
      && (e.id in w'.db.events <==> Awaited(w.db, e) || w.db.bookings[e.booking].status != PendingPayment)
      && w'.flights == w.flights
  {
    var b := e.booking;
    if Awaited(w.db, e) {
      assert ConfirmedRows(w.db, w.now, e).bookings[b].status != w.db.bookings[b].status;
    }
  }

  lemma RecordedDoesNothing(w: World, e: Event)
    requires e.id in w.db.events
    ensures Apply(w, Deliver(e)).db == w.db && Apply(w, Deliver(e)).flights == w.flights
  {
  }

  /** From every reachable state: a payment in full for a booking that no longer waits leaves every row as
      it was, starts nothing, and can never take effect on any further run.
    */
  lemma LatePaymentIsSwallowed(config: Config, now: int, before: seq<Step>, e: Event, after: seq<Step>)
    requires PaidInFull(Reached(config, now, before).db, e)
    requires Reached(config, now, before).db.bookings[e.booking].status != PendingPayment
    ensures var w := Reached(config, now, before); var w1 := Apply(w, Deliver(e)); var w2 := Run(w1, after);
      && w1.db == w.db.(events := w.db.events + {e.id}) && w1.flights == w.flights
      && Apply(w2, Deliver(e)).db == w2.db && Apply(w2, Deliver(e)).flights == w2.flights
  {
    var w := Reached(config, now, before);
    var w1 := Apply(w, Deliver(e));
    PaidConfirmsExactly(w, e);
    EventsAfter(w, e);
    hide Run, Inv, Apply;
    ReachedInv(config, now, before);
    StepKeeps(w, Deliver(e));
    RunKeeps(w1, after);
    RecordedDoesNothing(Run(w1, after), e);
  }

  lemma EventsAfter(w: World, e: Event)
    requires PaidInFull(w.db, e) && w.db.bookings[e.booking].status != PendingPayment
    ensures Apply(w, Deliver(e)).db == w.db.(events := w.db.events + {e.id})
  {
  }

  // --- an expired booking is never refunded ---

  /** Refunds were reported only for bookings in the paid cancellation states. */
  ghost predicate FactsOk(w: World) {
    forall fact :: fact in w.refunds ==> InRefund(w.db.bookings, fact.booking)
  }

  lemma DeliveredFact(w: World, e: Event, fact: RefundFact)
    requires fact in ApplyDeliver(w, e).refunds && fact !in w.refunds
    ensures fact.booking < |w.db.bookings| && RefundOpen(w.db.bookings[fact.booking].status)
  {
    hide Release;
  }

  lemma AdvancedFact(w: World, f: Flight, reply: Reply, fact: RefundFact)
    requires fact in ApplyAdvance(w, f, reply).refunds && fact !in w.refunds
    ensures f in w.flights && f.booking == fact.booking && !CheckoutFlight(f)
  {
    hide FinalizeTx;
  }

  lemma CreateReportsNone(w: World, verified: bool, key: ClientKey, request: Request)
    ensures ApplyCreate(w, verified, key, request).refunds == w.refunds
  {
    hide CreateTx;
  }

  lemma CancelReportsNone(w: World, user: nat, b: nat)
    ensures ApplyCancel(w, user, b).refunds == w.refunds
  {
    hide CancelTx;
  }

  lemma ExpireReportsNone(w: World, b: nat)
    ensures ApplyExpire(w, b).refunds == w.refunds
  {
    hide ExpireTx;
  }

  lemma ReconcileReportsNone(w: World, b: nat)
    ensures ApplyReconcile(w, b).refunds == w.refunds
  {
    hide Unresolved;
  }

  /** Where a report comes from: a refund webhook of an open cancellation, or a refund operation. */
  lemma NewFact(w: World, step: Step, fact: RefundFact)
    requires Inv(w) && fact in Apply(w, step).refunds && fact !in w.refunds
    ensures InRefund(w.db.bookings, fact.booking)
  {
    hide RowsOk, ReviewStateOk, ApplyCreate, ApplyCancel, ApplyExpire, ApplyDeliver, ApplyAdvance, ApplyReconcile;
    match step {
      case Create(verified, key, request) => CreateReportsNone(w, verified, key, request);
      case Cancel(user, b) => CancelReportsNone(w, user, b);
      case Expire(b) => ExpireReportsNone(w, b);
      case Reconcile(b) => ReconcileReportsNone(w, b);
      case Deliver(e) =>
        DeliveredFact(w, e, fact);
        RefundHasPayment(w.db, fact.booking);
      case Advance(f, reply) =>
        AdvancedFact(w, f, reply, fact);
        assert FlightOk(w.db, w.sessions, w.refunds, f);
      case _ =>
    }
  }

  lemma StepKeepsFacts(w: World, step: Step)
    requires Inv(w) && FactsOk(w)
    ensures FactsOk(Apply(w, step))
  {
    hide Apply, RowsOk, ReviewStateOk;
    StepKeeps(w, step);
    var w' := Apply(w, step);
    forall fact | fact in w'.refunds ensures InRefund(w'.db.bookings, fact.booking) {
      if fact !in w.refunds {
        NewFact(w, step, fact);
      }
      assert InRefund(w.db.bookings, fact.booking);
      assert BookingLater(w.db.bookings[fact.booking], w'.db.bookings[fact.booking]);
    }
  }

  lemma {:induction false} RunKeepsFacts(w: World, steps: seq<Step>)
    requires Inv(w) && FactsOk(w)
    ensures FactsOk(Run(w, steps))
    decreases |steps|
  {
    hide Inv, Apply, FactsOk, Later;
    if steps != [] {
      StepKeeps(w, steps[0]);
      StepKeepsFacts(w, steps[0]);
      RunKeepsFacts(Apply(w, steps[0]), steps[1..]);
    }
  }

  lemma RunAppends(w: World, before: seq<Step>, after: seq<Step>)
    ensures Run(w, before + after) == Run(Run(w, before), after)
  {
    RunConcat(w, before, after);
  }

  /** On every further run of an expired booking it stays expired, no refund operation for it is ever in
      flight and the provider never reports a refund for it: money that came late is never asked back.
    */
  lemma ExpiredIsNeverRefunded(config: Config, now: int, before: seq<Step>, after: seq<Step>, b: nat)
    requires b < |Reached(config, now, before).db.bookings|
    requires Reached(config, now, before).db.bookings[b].status == Expired
    ensures var w := Run(Reached(config, now, before), after);
      && b < |w.db.bookings| && w.db.bookings[b].status == Expired
      && (forall f :: f in w.flights && f.booking == b ==> CheckoutFlight(f))
      && (forall fact :: fact in w.refunds ==> fact.booking != b)
  {
    StatusForward(config, now, before, after, b);
    RunAppends(Initial(config, now), before, after);
    InitialInv(config, now);
    ReachedInv(config, now, before + after);
    RunKeepsFacts(Initial(config, now), before + after);
    hide Run, RowsOk, ReviewStateOk;
    var w := Reached(config, now, before + after);
    forall f | f in w.flights && f.booking == b ensures CheckoutFlight(f) {
      assert FlightOk(w.db, w.sessions, w.refunds, f);
    }
  }

  // --- a run on which it happens ---

  const HELD_UNTIL := 1_800_000

  const LATE_STEPS := [Tick(HELD_UNTIL), Expire(0), Deliver(PAID)]

  const EXPIRED_ROW := Row(Expired).(releasedAt := Some(HELD_UNTIL))

  const SWALLOWED := OPENED.(
    now := HELD_UNTIL,
    db := At(Departure(0, START, 5, 0, true, false), EXPIRED_ROW,
             Payment(0, CheckoutOpen, 100, Some("cs"), Some("pi"), None, Some(SESSION.url)))
          .(events := {"evt-1"}),
    consumed := {PAID},
    returned := multiset{0})

  lemma Expires()
    ensures var w := Apply(Apply(OPENED, LATE_STEPS[0]), LATE_STEPS[1]);
      w == SWALLOWED.(db := SWALLOWED.db.(events := {}), consumed := {})
  {
  }

  lemma Swallows()
    ensures Apply(SWALLOWED.(db := SWALLOWED.db.(events := {}), consumed := {}), Deliver(PAID)) == SWALLOWED
  {
  }

  /** A customer books, opens the checkout and pays after the hold has expired: the paid event is consumed,
      the booking stays expired, its payment stays open, and nothing is in flight.
    */
  lemma PaidTooLate()
    ensures var steps := BOOKING_STEPS + CHECKOUT_STEPS + LATE_STEPS;
      var w := Reached(CONFIG, 0, steps);
      && w == SWALLOWED
      && PAID in w.consumed && w.flights == multiset{}
      && w.db.bookings[0].status == Expired && w.db.payments[0].status == CheckoutOpen
  {
    hide Apply;
    Books();
    Opens();
    RunConcat(Initial(CONFIG, 0), BOOKING_STEPS, CHECKOUT_STEPS);
    RunConcat(Initial(CONFIG, 0), BOOKING_STEPS + CHECKOUT_STEPS, LATE_STEPS);
    Expires();
    Swallows();
    RunOn(OPENED, LATE_STEPS);
    RunOn(Apply(OPENED, LATE_STEPS[0]), LATE_STEPS[1..]);
    RunOn(Apply(Apply(OPENED, LATE_STEPS[0]), LATE_STEPS[1]), LATE_STEPS[1..][1..]);
    assert LATE_STEPS[1..][1..][1..] == [];
  }
}
