/** What keeps an open cancellation within reach of a refund, and the two ways it slips out of it. */
module Refunds {
  import opened Rows
  import opened Seats
  import opened BookingTx
  import opened Machine
  import opened Invariant
  import opened BookingSteps
  import opened Safety
  import opened CancelledLost

  /** On every run a refund that starts asks the provider, for the payment it took and the full amount: the
      early return of a payment without a provider payment is unreachable.
    */
  lemma RefundAlwaysAsks(config: Config, now: int, steps: seq<Step>, b: nat)
    requires RefundLoad(b) in Reached(config, now, steps).flights
    ensures var w := Reached(config, now, steps);
      && b < |w.db.bookings| && b in w.db.payments && w.db.payments[b].paymentId.Some?
      && Apply(w, Advance(RefundLoad(b), Done))
         == w.(flights := w.flights - multiset{RefundLoad(b)}
                          + multiset{RefundCall(b, w.db.payments[b].paymentId.value, w.db.bookings[b].totalCents)})
  {
    hide Run, Apply;
    var w := Reached(config, now, steps);
    ReachedInv(config, now, steps);
    LoadHasPayment(w, b);
    LoadAsks(w, b);
  }

  lemma LoadHasPayment(w: World, b: nat)
    requires Inv(w) && RefundLoad(b) in w.flights
    ensures b < |w.db.bookings| && b in w.db.payments && w.db.payments[b].paymentId.Some?
    ensures w.db.payments[b].amountCents == w.db.bookings[b].totalCents
  {
    hide ReviewStateOk, SeatsOk, SnapshotsOk;
    assert FlightOk(w.db, w.sessions, w.refunds, RefundLoad(b));
  }

  lemma LoadAsks(w: World, b: nat)
    requires RefundLoad(b) in w.flights && b in w.db.payments && w.db.payments[b].paymentId.Some?
    ensures Apply(w, Advance(RefundLoad(b), Done))
         == w.(flights := w.flights - multiset{RefundLoad(b)}
                          + multiset{RefundCall(b, w.db.payments[b].paymentId.value, w.db.payments[b].amountCents)})
  {
  }

  // --- leaving the reconciler's selection ---

  /** The write of a checkout, opened by a repeated create, over the payment of a booking being refunded. */
  predicate ReopensCheckout(w: World, step: Step, b: nat) {
    && step.Advance? && step.flight.CheckoutWrite? && step.flight.booking == b && step.reply == Done
    && step.flight in w.flights && b in w.db.payments
    && !OpenedClashes(w.db.payments, b, step.flight.session)
  }

  /** The write of a granted refund, before the cancellation is finished. */
  predicate RecordsGrant(w: World, step: Step, b: nat) {
    && step.Advance? && step.flight.RefundWrite? && step.flight.booking == b && step.reply == Done
    && step.flight in w.flights && step.flight.outcome.Succeeded?
    && !RefundIdTaken(w.db.payments, b, step.flight.refundId)
  }

  /** Still to be refunded, but not selected by the reconciler. */
  predicate OutOfReach(db: Db, b: nat) {
    && b < |db.bookings| && b in db.payments
    && RefundOpen(db.bookings[b].status) && !Unresolved(db, b)
  }

  lemma OthersKeepReach(w: World, step: Step, b: nat)
    requires Unresolved(w.db, b) && !(step.Deliver? || step.Cancel? || step.Expire? || step.Advance?)
    ensures b < |Apply(w, step).db.bookings| && !OutOfReach(Apply(w, step).db, b)
  {
  }

  lemma CancelKeepsReach(w: World, user: nat, c: nat, b: nat)
    requires Unresolved(w.db, b)
    ensures !OutOfReach(ApplyCancel(w, user, c).db, b)
  {
    hide Release;
    if c < |w.db.bookings| {
      ReleaseElsewhere(w.db, c, Cancelled, w.now);
    }
  }

  lemma ReleaseElsewhere(db: Db, c: nat, status: Status, now: int)
    requires c < |db.bookings|
    ensures Release(db, c, status, now).Commit? ==>
      var db' := Release(db, c, status, now).db;
      && db'.payments == db.payments && db'.bookings == db.bookings[c := db'.bookings[c]]
      && (db.bookings[c].releasedAt.None? ==> db'.bookings[c].status == status)
      && (db.bookings[c].releasedAt.Some? ==> db'.bookings[c] == db.bookings[c])
  {
  }

  lemma ExpireKeepsReach(w: World, c: nat, b: nat)
    requires Unresolved(w.db, b)
    ensures !OutOfReach(ApplyExpire(w, c).db, b)
  {
    hide Release;
    if c < |w.db.bookings| {
      ReleaseElsewhere(w.db, c, Expired, w.now);
    }
  }

  lemma DeliverKeepsReach(w: World, e: Event, b: nat)
    requires Unresolved(w.db, b) && w.db.bookings[b].releasedAt.None?
    ensures !OutOfReach(ApplyDeliver(w, e).db, b)
  {
    hide Release;
    if e.booking < |w.db.bookings| {
      var db1 := w.db.(events := w.db.events + {e.id});
      ReleaseElsewhere(db1, e.booking, Expired, w.now);
      ReleaseElsewhere(db1, e.booking, Cancelled, w.now);
    }
  }

  lemma AdvanceReach(w: World, f: Flight, reply: Reply, b: nat)
    requires Unresolved(w.db, b) && w.db.bookings[b].releasedAt.None?
    requires f in w.flights ==> FlightOk(w.db, w.sessions, w.refunds, f)
    ensures OutOfReach(ApplyAdvance(w, f, reply).db, b)
       <==> ReopensCheckout(w, Advance(f, reply), b) || RecordsGrant(w, Advance(f, reply), b)
  {
    if CheckoutFlight(f) {
      CheckoutReach(w, f, reply, b);
    } else if f in w.flights {
      RefundReach(w, f, reply, b);
    }
  }

  lemma CheckoutReach(w: World, f: Flight, reply: Reply, b: nat)
    requires Unresolved(w.db, b) && CheckoutFlight(f)
    ensures OutOfReach(ApplyAdvance(w, f, reply).db, b) <==> ReopensCheckout(w, Advance(f, reply), b)
  {
  }

  lemma RefundReach(w: World, f: Flight, reply: Reply, b: nat)
    requires Unresolved(w.db, b) && w.db.bookings[b].releasedAt.None?
    requires !CheckoutFlight(f) && f in w.flights && FlightOk(w.db, w.sessions, w.refunds, f)
    ensures OutOfReach(ApplyAdvance(w, f, reply).db, b) <==> RecordsGrant(w, Advance(f, reply), b)
  {
    hide FinalizeTx, FlightOk;
    if f.Finalize? {
      FinalizeKeepsReach(w.db, w.now, f.booking, f.refundId, f.amountCents, b);
    }
  }

  lemma FinalizeKeepsReach(db: Db, now: int, c: nat, refundId: string, amount: int, b: nat)
    requires Unresolved(db, b) && db.bookings[b].releasedAt.None?
    ensures var tx := FinalizeTx(db, now, c, refundId, amount); tx.Commit? ==> !OutOfReach(tx.db, b)
  {
    hide Release;
    if c < |db.bookings| {
      ReleaseElsewhere(db, c, Cancelled, now);
    }
  }

  /** A cancellation that waits for its refund leaves the reconciler's selection in one step, without being
      finished, exactly when a repeated create reopens its checkout or a granted refund is recorded.
    */
  lemma ReachLostExactly(w: World, step: Step, b: nat)
    requires Inv(w) && Unresolved(w.db, b) && w.db.bookings[b].releasedAt.None?
    ensures OutOfReach(Apply(w, step).db, b) <==> ReopensCheckout(w, step, b) || RecordsGrant(w, step, b)
  {
    hide RowsOk, ReviewStateOk, Unresolved, OutOfReach, ApplyDeliver, ApplyCancel, ApplyExpire, ApplyAdvance;
    match step {
      case Deliver(e) => DeliverKeepsReach(w, e, b);
      case Expire(c) => ExpireKeepsReach(w, c, b);
      case Cancel(user, c) => CancelKeepsReach(w, user, c, b);
      case Advance(f, reply) =>
        assert f in w.flights ==> FlightOk(w.db, w.sessions, w.refunds, f);
        AdvanceReach(w, f, reply, b);
      case _ => OthersKeepReach(w, step, b);
    }
  }

  /** The reconciler passes over a booking out of reach. */
  lemma ReconcilerPassesOver(w: World, b: nat)
    requires OutOfReach(w.db, b)
    ensures Apply(w, Reconcile(b)) == w
  {
  }

  // --- a run on which it happens ---

  const REPLAY_STEPS := [
    Deliver(PAID),
    Cancel(7, 0),
    Crash(RefundLoad(0)),
    Create(true, KEY, REQUEST)]

  const WAITING := FAILING.(flights := multiset{})

  const REOPENED := WAITING.(
    db := WAITING.db.(
      payments := map[0 := Payment(0, CheckoutOpen, 100, Some("cs"), Some("pi"), None, Some(SESSION.url))]))

  lemma Replays()
    ensures Apply(WAITING, Create(true, KEY, REQUEST)) == WAITING.(flights := multiset{CheckoutOwned(7, 0)})
  {
  }

  lemma Crashes()
    ensures Apply(FAILING.(flights := multiset{RefundLoad(0)}), Crash(RefundLoad(0))) == WAITING
  {
  }

  lemma ReplaysAfterCancel()
    ensures Run(OPENED, REPLAY_STEPS) == WAITING.(flights := multiset{CheckoutOwned(7, 0)})
  {
    hide Apply;
    Pays();
    Cancels();
    Crashes();
    Replays();
    RunFour(OPENED, REPLAY_STEPS);
  }

  lemma Reopens()
    ensures Run(WAITING.(flights := multiset{CheckoutOwned(7, 0)}), CHECKOUT_STEPS) == REOPENED
  {
    hide Apply;
    Owns();
    Loads();
    Asks();
    Writes();
    RunFour(WAITING.(flights := multiset{CheckoutOwned(7, 0)}), CHECKOUT_STEPS);
  }

  lemma Owns()
    ensures Apply(WAITING.(flights := multiset{CheckoutOwned(7, 0)}), CHECKOUT_STEPS[0])
         == WAITING.(flights := multiset{CheckoutLoad(0)})
  {
  }

  lemma Loads()
    ensures Apply(WAITING.(flights := multiset{CheckoutLoad(0)}), CHECKOUT_STEPS[1])
         == WAITING.(flights := multiset{CheckoutCall(0)})
  {
  }

  lemma Asks()
    ensures Apply(WAITING.(flights := multiset{CheckoutCall(0)}), CHECKOUT_STEPS[2])
         == WAITING.(flights := multiset{CheckoutWrite(0, SESSION)})
  {
    assert WAITING.sessions[0 := SESSION] == WAITING.sessions;
  }

  lemma Writes()
    ensures Apply(WAITING.(flights := multiset{CheckoutWrite(0, SESSION)}), CHECKOUT_STEPS[3]) == REOPENED
  {
  }

  /** A customer pays and cancels, the refund is lost in a crash, and the create request is sent again: the
      payment reads as an open checkout, the cancellation is still pending, and the reconciler passes it over.
    */
  lemma ReplayHidesTheRefund()
    ensures var w := Reached(CONFIG, 0, BOOKING_STEPS + CHECKOUT_STEPS + REPLAY_STEPS + CHECKOUT_STEPS);
      && w == REOPENED
      && w.db.bookings[0].status == CancellationPending && w.flights == multiset{}
      && OutOfReach(w.db, 0) && Apply(w, Reconcile(0)) == w
  {
    hide Apply;
    var w0 := Initial(CONFIG, 0);
    Books();
    Opens();
    ReplaysAfterCancel();
    Reopens();
    RunConcat(w0, BOOKING_STEPS, CHECKOUT_STEPS);
    RunConcat(w0, BOOKING_STEPS + CHECKOUT_STEPS, REPLAY_STEPS);
    RunConcat(w0, BOOKING_STEPS + CHECKOUT_STEPS + REPLAY_STEPS, CHECKOUT_STEPS);
    ReconcilerPassesOver(REOPENED, 0);
  }
}
