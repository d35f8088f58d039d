/** When a finished cancellation can still be overwritten: exactly while a refund attempt for the booking
    that can end in a failure is in flight, and none can start any more.
  */
module LateFailures {
  import opened Rows
  import opened BookingTx
  import opened Machine
  import opened Invariant
  import opened BookingSteps
  import opened Transitions
  import opened Safety
  import opened Jobs

  /** A continuation of refund that may yet write its failure over the booking. */
  predicate MayFail(f: Flight, b: nat) {
    && f.booking == b
    && (f.RefundLoad? || f.RefundCall? || f.RefundWrite? || (f.Finalize? && f.origin.FromRefund?)
        || f.FailPayment? || f.FailBooking?)
  }

  predicate Failing(w: World, b: nat) {
    exists f :: f in w.flights && MayFail(f, b)
  }

  predicate IsCancelled(w: World, b: nat) {
    b < |w.db.bookings| && w.db.bookings[b].status == Cancelled
  }

  // --- none starts ---

  lemma CancelStartsNone(w: World, user: nat, c: nat, b: nat, f: Flight)
    requires IsCancelled(w, b) && MayFail(f, b)
    ensures ApplyCancel(w, user, c).flights[f] <= w.flights[f]
  {
    hide Release;
  }

  lemma AdvanceStartsNone(w: World, g: Flight, reply: Reply, b: nat, f: Flight)
    requires MayFail(f, b) && !MayFail(g, b)
    ensures ApplyAdvance(w, g, reply).flights[f] <= w.flights[f]
  {
    hide AdvanceCheckout, AdvanceRefund;
    var w' := w.(flights := w.flights - multiset{g});
    if CheckoutFlight(g) {
      CheckoutStartsNone(w', g, reply, b, f);
    } else {
      RefundStartsNone(w', g, reply, b, f);
    }
  }

  lemma CheckoutStartsNone(w: World, g: Flight, reply: Reply, b: nat, f: Flight)
    requires MayFail(f, b) && CheckoutFlight(g)
    ensures AdvanceCheckout(w, g, reply).flights[f] <= w.flights[f]
  {
  }

  lemma RefundStartsNone(w: World, g: Flight, reply: Reply, b: nat, f: Flight)
    requires MayFail(f, b) && !MayFail(g, b) && !CheckoutFlight(g)
    ensures AdvanceRefund(w, g, reply).flights[f] <= w.flights[f]
  {
    hide FinalizeTx, RefundIdTaken;
  }

  lemma CreateStartsNone(w: World, verified: bool, key: ClientKey, request: Request, b: nat, f: Flight)
    requires MayFail(f, b)
    ensures ApplyCreate(w, verified, key, request).flights[f] <= w.flights[f]
  {
    hide CreateTx;
  }

  lemma ReconcileStartsNone(w: World, c: nat, b: nat, f: Flight)
    requires IsCancelled(w, b) && MayFail(f, b)
    ensures ApplyReconcile(w, c).flights[f] <= w.flights[f]
  {
  }

  /** Once a booking is cancelled no step starts a refund attempt for it: only attempts already under
      way go on.
    */
  lemma NoneStarts(w: World, step: Step, b: nat, f: Flight)
    requires IsCancelled(w, b) && MayFail(f, b)
    requires !(step.Advance? && MayFail(step.flight, b))
    ensures Apply(w, step).flights[f] <= w.flights[f]
  {
    hide ApplyCancel, ApplyAdvance, ApplyCreate, ApplyReconcile, DeliverTx, ExpireTx;
    match step {
      case Create(verified, key, request) => CreateStartsNone(w, verified, key, request, b, f);
      case Reconcile(c) => ReconcileStartsNone(w, c, b, f);
      case Cancel(user, c) => CancelStartsNone(w, user, c, b, f);
      case Advance(g, reply) => AdvanceStartsNone(w, g, reply, b, f);
      case _ =>
    }
  }

  lemma StepStaysCancelled(w: World, step: Step, b: nat)
    requires Inv(w) && IsCancelled(w, b) && !Failing(w, b)
    ensures IsCancelled(Apply(w, step), b) && !Failing(Apply(w, step), b)
  {
    hide Inv, Apply, MayFail;
    CancelledLeavesExactly(w, step, b);
    assert !LateFailure(w, step, b) by { LateIsFailing(w, step, b); }
    forall f | MayFail(f, b) ensures f !in Apply(w, step).flights {
      if step.Advance? && MayFail(step.flight, b) {
        NotInFlight(w, step.flight, step.reply);
      } else {
        NoneStarts(w, step, b, f);
      }
    }
  }

  lemma LateIsFailing(w: World, step: Step, b: nat)
    ensures LateFailure(w, step, b) ==> Failing(w, b)
  {
    if LateFailure(w, step, b) {
      assert MayFail(FailBooking(b), b);
    }
  }

  lemma {:induction false} StaysCancelled(w: World, steps: seq<Step>, b: nat)
    requires Inv(w) && IsCancelled(w, b) && !Failing(w, b)
    ensures IsCancelled(Run(w, steps), b)
    decreases |steps|
  {
    hide Inv, Apply, IsCancelled, Failing, Later;
    if steps != [] {
      StepKeeps(w, steps[0]);
      StepStaysCancelled(w, steps[0], b);
      StaysCancelled(Apply(w, steps[0]), steps[1..], b);
    }
  }

  // --- whoever is under way can still fail ---

  /** How many awaits an attempt has before it ends. */
  function AwaitsLeft(f: Flight): nat {
    if f.RefundLoad? then 3 else if f.FailPayment? then 1 else if f.FailBooking? then 0 else 2
  }

  /** The rest of an attempt on which everything that can throw does. */
  function FailingSteps(payments: map<nat, Payment>, f: Flight): seq<Step>
    decreases AwaitsLeft(f)
  {
    var b := f.booking;
    if f.FailBooking? then [Advance(f, Done)]
    else if f.FailPayment? then [Advance(f, Done)] + FailingSteps(payments, FailBooking(b))
    else if !f.RefundLoad? then [Advance(f, Throws)] + FailingSteps(payments, FailPayment(b))
    else if b in payments && payments[b].paymentId.Some? then
      [Advance(f, Done)]
      + FailingSteps(payments, RefundCall(b, payments[b].paymentId.value, payments[b].amountCents))
    else [Advance(f, Done)]
  }

  lemma FailBookingFails(w: World, b: nat)
    requires b < |w.db.bookings| && FailBooking(b) in w.flights
    ensures var w' := Apply(w, Advance(FailBooking(b), Done));
      b < |w'.db.bookings| && w'.db.bookings[b].status == CancellationFailed
  {
  }

  lemma FailPaymentGoesOn(w: World, b: nat)
    requires b in w.db.payments && FailPayment(b) in w.flights
    ensures var w' := Apply(w, Advance(FailPayment(b), Done));
      w'.db.bookings == w.db.bookings && FailBooking(b) in w'.flights
  {
  }

  lemma ThrowGoesOn(w: World, f: Flight, b: nat)
    requires f in w.flights && MayFail(f, b) && !f.RefundLoad? && !f.FailPayment? && !f.FailBooking?
    ensures var w' := Apply(w, Advance(f, Throws)); w'.db == w.db && FailPayment(b) in w'.flights
  {
  }

  lemma LoadGoesOn(w: World, b: nat)
    requires RefundLoad(b) in w.flights && b in w.db.payments && w.db.payments[b].paymentId.Some?
    ensures var w' := Apply(w, Advance(RefundLoad(b), Done));
      && w'.db == w.db
      && RefundCall(b, w.db.payments[b].paymentId.value, w.db.payments[b].amountCents) in w'.flights
  {
  }

  lemma RunPrepend(w: World, step: Step, rest: seq<Step>)
    ensures Run(w, [step] + rest) == Run(Apply(w, step), rest)
  {
    assert ([step] + rest)[1..] == rest;
  }

  lemma {:induction false} FailingStepsFail(w: World, f: Flight, b: nat)
    requires f in w.flights && MayFail(f, b)
    requires b < |w.db.bookings| && b in w.db.payments && w.db.payments[b].paymentId.Some?
    ensures var w' := Run(w, FailingSteps(w.db.payments, f));
      b < |w'.db.bookings| && w'.db.bookings[b].status == CancellationFailed
    decreases AwaitsLeft(f)
  {
    hide Apply;
    var payments := w.db.payments;
    if f.FailBooking? {
      FailBookingFails(w, b);
      RunPrepend(w, Advance(f, Done), []);
    } else if f.FailPayment? {
      FailPaymentGoesOn(w, b);
      FailBookingFails(Apply(w, Advance(f, Done)), b);
      RunPrepend(w, Advance(f, Done), FailingSteps(payments, FailBooking(b)));
      RunPrepend(Apply(w, Advance(f, Done)), Advance(FailBooking(b), Done), []);
    } else if f.RefundLoad? {
      LoadGoesOn(w, b);
      var call := RefundCall(b, payments[b].paymentId.value, payments[b].amountCents);
      RunPrepend(w, Advance(f, Done), FailingSteps(payments, call));
      FailingStepsFail(Apply(w, Advance(f, Done)), call, b);
    } else {
      ThrowGoesOn(w, f, b);
      RunPrepend(w, Advance(f, Throws), FailingSteps(payments, FailPayment(b)));
      FailingStepsFail(Apply(w, Advance(f, Throws)), FailPayment(b), b);
    }
  }

  lemma CancelledHasPayment(w: World, b: nat)
    requires Inv(w) && IsCancelled(w, b) && Failing(w, b)
    ensures b in w.db.payments && w.db.payments[b].paymentId.Some?
  {
    var f :| f in w.flights && MayFail(f, b);
    assert FlightOk(w.db, w.sessions, w.refunds, f);
  }

  /** From any reachable state a finished cancellation can still be lost on some further run exactly when
      a refund attempt for the booking that can end in failure is in flight.
    */
  lemma CancelledLostExactly(config: Config, now: int, before: seq<Step>, b: nat)
    requires IsCancelled(Reached(config, now, before), b)
    ensures var w := Reached(config, now, before);
      (exists after :: !IsCancelled(Run(w, after), b)) <==> Failing(w, b)
  {
    hide Inv, Run, MayFail, Later;
    var w := Reached(config, now, before);
    ReachedInv(config, now, before);
    if Failing(w, b) {
      CancelledHasPayment(w, b);
      var f :| f in w.flights && MayFail(f, b);
      assert f.booking == b by { FailsItsBooking(f, b); }
      FailingStepsFail(w, f, b);
      assert !IsCancelled(Run(w, FailingSteps(w.db.payments, f)), b);
    } else {
      forall after ensures IsCancelled(Run(w, after), b) {
        StaysCancelled(w, after, b);
      }
    }
  }

  lemma FailsItsBooking(f: Flight, b: nat)
    requires MayFail(f, b)
    ensures f.booking == b
  {
  }
}
