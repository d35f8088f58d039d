/** The booking steps keep the invariant: user calls, webhooks, the expiry job and every await of
    the refund and checkout operations.
  */
module BookingSteps {
  import opened Rows
  import opened Seats
  import opened BookingTx
  import opened Machine
  import opened Invariant
  import opened RowsKept
  import opened ReviewsKept
  import opened MovesKept

  // --- a released row is a later row ---

  lemma ReleaseMoves(db: Db, b: nat, status: Status, now: int)
    requires RowsOk(db) && b < |db.bookings|
    requires CanReach(db.bookings[b].status, status, db.bookings[b].totalCents)
    ensures var tx := Release(db, b, status, now);
      && tx.Commit?
      && |tx.db.bookings| == |db.bookings|
      && tx.db == db.(departures := tx.db.departures, bookings := tx.db.bookings)
      && tx.db.bookings == db.bookings[b := tx.db.bookings[b]]
      && BookingLater(db.bookings[b], tx.db.bookings[b])
      && tx.db.bookings[b].releasedAt.Some?
      && tx.value.returned == db.bookings[b].releasedAt.None?
      && tx.db.bookings[b].status == (if tx.value.returned then status else db.bookings[b].status)
  {
    ReleaseCommits(db, b, status, now);
  }

  // --- user calls ---

  /** The cancel transaction, without the refund it may start. */
  function CancelRows(w: World, tx: Tx<Cancellation>, b: nat): World
    requires tx.Commit?
  {
    w.(db := tx.db, returned := Return(w.returned, b, tx.value.returned))
  }

  lemma CancelMoves(w: World, user: nat, b: nat)
    requires RowsOk(w.db) && CancelTx(w.db, w.config, w.now, user, b).Commit?
    ensures var tx := CancelTx(w.db, w.config, w.now, user, b);
      var w' := CancelRows(w, tx, b);
      && Moved(w, w', b) && Accounted(w, w', b) && PastStays(w, w', b)
      && w'.db.events == w.db.events
      && (tx.value.refund ==> InRefund(w'.db.bookings, b))
  {
    assert PhaseOk(w.db.bookings[b]);
    if w.db.bookings[b].status == Confirmed && w.db.bookings[b].totalCents == 0 {
      ReleaseMoves(w.db, b, Cancelled, w.now);
    }
  }

  lemma CancelStep(w: World, user: nat, b: nat)
    requires Inv(w)
    ensures Inv(ApplyCancel(w, user, b)) && Later(w, ApplyCancel(w, user, b))
  {
    hide RowsOk, ReviewStateOk, Moved, Accounted, PastStays, Later, CancelTx;
    var tx := CancelTx(w.db, w.config, w.now, user, b);
    if tx.Abort? {
      LaterReflexive(w);
    } else {
      CancelKeeps(w.db, w.config, w.now, user, b);
      CancelMoves(w, user, b);
      var w' := CancelRows(w, tx, b);
      MovedKeeps(w, w', b);
      if tx.value.refund {
        WithKeeps(w', RefundLoad(b));
        LaterTransitive(w, w', With(w', RefundLoad(b)));
      }
    }
  }

  /** A booking is added, with its payment if it costs something, under a new client key. */
  ghost predicate Added(w: World, w': World, key: ClientKey, request: Request) {
    var b := |w.db.bookings|;
    && |w'.db.bookings| == b + 1 && w'.db.bookings[..b] == w.db.bookings
    && var row := w'.db.bookings[b];
      && row.user == key.user && row.departure == request.departure && row.quantity == |request.travelers|
      && row.releasedAt.None? && (row.totalCents > 0 ==> row.status == PendingPayment)
      && key !in w.db.idempotency
      && w' == w.(db := w'.db, provenance := w.provenance + [Provenance(key, request)])
      && w'.db == w.db.(departures := w'.db.departures, bookings := w'.db.bookings, payments := w'.db.payments,
                        idempotency := w.db.idempotency[key := Replay(request, b)])
      && w'.db.payments == (if row.totalCents == 0 then w.db.payments
                            else w.db.payments[b := NewPayment(|w.db.payments|, row.totalCents)])
  }

  lemma AddedLater(w: World, w': World, key: ClientKey, request: Request)
    requires Added(w, w', key, request) && PaymentsOk(w.db)
    ensures Later(w, w')
  {
    assert forall b :: 0 <= b < |w.db.bookings| ==> w'.db.bookings[b] == w.db.bookings[b];
  }

  lemma AddedSessions(w: World, w': World, key: ClientKey, request: Request)
    requires Added(w, w', key, request) && PaymentsOk(w.db) && SessionsOk(w.db.payments, w.sessions)
    ensures SessionsOk(w'.db.payments, w'.sessions)
  {
  }

  lemma AddedEvidence(w: World, w': World, key: ClientKey, request: Request)
    requires Added(w, w', key, request) && PaymentsOk(w.db) && EvidenceOk(w.db, w.consumed)
    ensures EvidenceOk(w'.db, w'.consumed)
  {
    hide Proved;
    assert forall b :: 0 <= b < |w.db.bookings| ==> w'.db.bookings[b] == w.db.bookings[b];
  }

  lemma AddedMoney(bookings: seq<Booking>, row: Booking, refunds: set<RefundFact>, returned: multiset<nat>)
    requires RefundsOk(bookings, refunds) && ReturnsOk(bookings, returned) && row.releasedAt.None?
    ensures RefundsOk(bookings + [row], refunds) && ReturnsOk(bookings + [row], returned)
  {
  }

  lemma AddedProvenance(w: World, w': World, key: ClientKey, request: Request)
    requires Added(w, w', key, request) && ProvenanceOk(w.db, w.provenance)
    ensures ProvenanceOk(w'.db, w'.provenance)
  {
    assert forall b :: 0 <= b < |w.db.bookings| ==> w'.db.bookings[b] == w.db.bookings[b];
  }

  lemma AddedKeeps(w: World, w': World, key: ClientKey, request: Request)
    requires Inv(w) && Added(w, w', key, request) && RowsOk(w'.db)
    ensures Inv(w') && Later(w, w')
  {
    assert forall b :: 0 <= b < |w.db.bookings| ==> w'.db.bookings[b] == w.db.bookings[b];
    ReviewsCarry(w.db, w.now, w'.db, w'.now);
    AddedLater(w, w', key, request);
    hide FlightOk, Later, EvidenceOk, SessionsOk, ReviewOk, ProvenanceOk, RefundsOk, ReturnsOk;
    AddedEvidence(w, w', key, request);
    AddedSessions(w, w', key, request);
    AddedMoney(w.db.bookings, w'.db.bookings[|w.db.bookings|], w.refunds, w.returned);
    assert w'.db.bookings == w.db.bookings + [w'.db.bookings[|w.db.bookings|]];
    AddedProvenance(w, w', key, request);
    FlightsCarry(w, w', multiset{}, multiset{});
  }

  lemma CreateAdds(w: World, verified: bool, key: ClientKey, request: Request)
    requires RowsOk(w.db) && key !in w.db.idempotency
    requires CreateTx(w.db, w.config, w.now, verified, key, request).Commit?
    ensures var tx := CreateTx(w.db, w.config, w.now, verified, key, request);
      && tx.value == |w.db.bookings|
      && Added(w, w.(db := tx.db, provenance := w.provenance + [Provenance(key, request)]), key, request)
  {
    var tx := CreateTx(w.db, w.config, w.now, verified, key, request);
    assert tx.db.bookings[..|w.db.bookings|] == w.db.bookings;
  }

  lemma CreateStep(w: World, verified: bool, key: ClientKey, request: Request)
    requires Inv(w)
    ensures var w' := ApplyCreate(w, verified, key, request); Inv(w') && Later(w, w')
  {
    hide RowsOk, ReviewStateOk, Added, Later, FlightsOk, EvidenceOk, SessionsOk, RefundsOk, ReturnsOk, ConsumedOk;
    var tx := CreateTx(w.db, w.config, w.now, verified, key, request);
    if tx.Abort? {
      LaterReflexive(w);
    } else if key in w.db.idempotency {
      LaterReflexive(w);
      assert w.(db := tx.db, provenance := w.provenance) == w;
      WithKeeps(w, CheckoutOwned(key.user, tx.value));
    } else {
      CreateKeeps(w.db, w.config, w.now, verified, key, request);
      CreateAdds(w, verified, key, request);
      var w1 := w.(db := tx.db, provenance := w.provenance + [Provenance(key, request)]);
      hide CreateTx;
      AddedKeeps(w, w1, key, request);
      assert tx.value < |w1.db.bookings|;
      WithKeeps(w1, CheckoutOwned(key.user, tx.value));
      LaterTransitive(w, w1, With(w1, CheckoutOwned(key.user, tx.value)));
    }
  }

  // --- webhooks ---

  lemma CompletedMoves(w: World, e: Event)
    requires RowsOk(w.db) && DeliverTx(w.db, w.now, e).Commit? && e.id !in w.db.events
    requires e.CheckoutCompleted?
    ensures var w' := ApplyDeliver(w, e);
      Moved(w, w', e.booking) && Accounted(w, w', e.booking) && PastStays(w, w', e.booking)
  {
    var w' := ApplyDeliver(w, e);
    assert PhaseOk(w.db.bookings[e.booking]);
    if w'.db.bookings[e.booking].status != w.db.bookings[e.booking].status {
      assert Proves(e, e.booking, w'.db.payments[e.booking].checkoutId, w'.db.bookings[e.booking].totalCents);
      assert e in w'.consumed;
    }
  }

  lemma ExpiredMoves(w: World, e: Event)
    requires RowsOk(w.db) && DeliverTx(w.db, w.now, e).Commit? && e.id !in w.db.events
    requires e.CheckoutExpired?
    ensures var w' := ApplyDeliver(w, e);
      Moved(w, w', e.booking) && Accounted(w, w', e.booking) && PastStays(w, w', e.booking)
  {
    hide CompletedTx, RefundedTx, SeatsOk, PaymentsOk;
    var db1 := w.db.(events := w.db.events + {e.id});
    assert PhaseOk(w.db.bookings[e.booking]);
    if w.db.bookings[e.booking].status == PendingPayment {
      EventKeeps(w.db, e.id);
      ReleaseMoves(db1, e.booking, Expired, w.now);
    }
  }

  lemma RefundedMoves(w: World, e: Event)
    requires RowsOk(w.db) && DeliverTx(w.db, w.now, e).Commit? && e.id !in w.db.events
    requires e.RefundCompleted?
    ensures var w' := ApplyDeliver(w, e);
      Moved(w, w', e.booking) && Accounted(w, w', e.booking) && PastStays(w, w', e.booking)
  {
    hide CompletedTx, ExpiredTx, SeatsOk, PaymentsOk;
    var db1 := w.db.(events := w.db.events + {e.id});
    assert PhaseOk(w.db.bookings[e.booking]);
    if RefundOpen(w.db.bookings[e.booking].status) {
      EventKeeps(w.db, e.id);
      ReleaseMoves(db1, e.booking, Cancelled, w.now);
    }
  }

  lemma DeliverConsumes(w: World, e: Event)
    requires ConsumedOk(w.db.events, w.consumed) && DeliverTx(w.db, w.now, e).Commit?
    ensures var w' := ApplyDeliver(w, e);
      && ConsumedOk(w'.db.events, w'.consumed)
      && w'.db.events == w.db.events + {e.id}
      && w'.flights == w.flights
  {
  }

  lemma DeliverStep(w: World, e: Event)
    requires Inv(w)
    ensures Inv(ApplyDeliver(w, e)) && Later(w, ApplyDeliver(w, e))
  {
    hide RowsOk, ReviewStateOk, Moved, Accounted, PastStays, Later;
    var w' := ApplyDeliver(w, e);
    if e.id in w.db.events || DeliverTx(w.db, w.now, e).Abort? {
      LaterReflexive(w);
    } else {
      DeliverKeeps(w.db, w.now, e);
      match e {
        case CheckoutCompleted(_, _, _, _, _, _, _, _) => CompletedMoves(w, e);
        case CheckoutExpired(_, _, _, _) => ExpiredMoves(w, e);
        case RefundCompleted(_, _, _, _, _, _, _) => RefundedMoves(w, e);
      }
      DeliverConsumes(w, e);
      hide ApplyDeliver, DeliverTx;
      MovedKeeps(w, w', e.booking);
    }
  }

  // --- the expiry job ---

  lemma ExpireMoves(w: World, b: nat)
    requires RowsOk(w.db) && b < |w.db.bookings| && ExpireTx(w.db, w.now, b).Commit?
    ensures var w' := ApplyExpire(w, b);
      && Moved(w, w', b) && Accounted(w, w', b) && PastStays(w, w', b)
      && w'.db.events == w.db.events && w'.consumed == w.consumed && w'.flights == w.flights
  {
    assert PhaseOk(w.db.bookings[b]);
    if HoldDue(w.db.bookings[b], w.now) {
      ReleaseMoves(w.db, b, Expired, w.now);
    }
  }

  lemma ExpireStep(w: World, b: nat)
    requires Inv(w)
    ensures Inv(ApplyExpire(w, b)) && Later(w, ApplyExpire(w, b))
  {
    hide RowsOk, ReviewStateOk, Moved, Accounted, PastStays, Later;
    if b >= |w.db.bookings| || ExpireTx(w.db, w.now, b).Abort? {
      LaterReflexive(w);
    } else {
      ExpireKeeps(w.db, w.now, b);
      ExpireMoves(w, b);
      hide ApplyExpire;
      MovedKeeps(w, ApplyExpire(w, b), b);
    }
  }

  // --- the jobs that pick up unfinished work ---

  lemma RecoverStep(w: World, b: nat)
    requires Inv(w)
    ensures Inv(Apply(w, Recover(b))) && Later(w, Apply(w, Recover(b)))
  {
    hide RowsOk, ReviewStateOk, OpsOk, Later;
    LaterReflexive(w);
    if Recoverable(w.db, w.now, b) {
      WithKeeps(w, CheckoutOwned(w.db.bookings[b].user, b));
    }
  }

  lemma UnresolvedInRefund(db: Db, b: nat)
    requires RowsOk(db) && Unresolved(db, b)
    ensures InRefund(db.bookings, b)
  {
    assert PhaseOk(db.bookings[b]);
  }

  lemma ReconcileStep(w: World, b: nat)
    requires Inv(w)
    ensures Inv(ApplyReconcile(w, b)) && Later(w, ApplyReconcile(w, b))
  {
    hide RowsOk, ReviewStateOk, OpsOk, Later;
    LaterReflexive(w);
    if Unresolved(w.db, b) {
      UnresolvedInRefund(w.db, b);
      WithKeeps(w, RefundLoad(b));
      if w.db.payments[b].refundId.Some? {
        WithKeeps(w, InspectCall(b, w.db.payments[b].refundId.value));
      }
    }
  }

  // --- checkout awaits ---

  lemma SessionKeeps(w: World, b: nat, session: Session)
    requires Inv(w) && b in w.db.payments && SessionPossible(w.sessions, b, session)
    ensures var w' := w.(sessions := w.sessions[b := session]); Inv(w') && Later(w, w')
  {
    hide RowsOk, ReviewStateOk, FlightOk;
    var w' := w.(sessions := w.sessions[b := session]);
    SessionsKeep(w.db.payments, w.sessions, b, session);
    assert Later(w, w');
    FlightsCarry(w, w', multiset{}, multiset{});
  }

  lemma SessionsKeep(payments: map<nat, Payment>, sessions: map<nat, Session>, b: nat, session: Session)
    requires SessionsOk(payments, sessions) && b in payments && SessionPossible(sessions, b, session)
    ensures SessionsOk(payments, sessions[b := session])
  {
  }

  /** The provider keeps one session per booking, so the unique index on checkout identifiers never
      rejects the write that stores a session.
    */
  lemma CheckoutIdFree(payments: map<nat, Payment>, sessions: map<nat, Session>, b: nat, session: Session)
    requires SessionsOk(payments, sessions) && b in sessions && sessions[b] == session
    ensures !CheckoutIdTaken(payments, b, session.checkoutId)
  {
  }

  ghost predicate Rewritten(w: World, w': World, b: nat, payment: Payment) {
    && b in w.db.payments && w' == w.(db := SetPayment(w.db, b, payment))
    && payment.id == w.db.payments[b].id && payment.amountCents == w.db.payments[b].amountCents
    && (w.db.payments[b].checkoutId.Some? ==> payment.checkoutId == w.db.payments[b].checkoutId)
    && (w.db.payments[b].paymentId.Some? ==> payment.paymentId.Some?)
  }

  lemma RewrittenLater(w: World, w': World, b: nat, payment: Payment)
    requires Rewritten(w, w', b, payment)
    ensures Later(w, w')
  {
  }

  lemma RewrittenRecords(w: World, w': World, b: nat, payment: Payment)
    requires Rewritten(w, w', b, payment) && EvidenceOk(w.db, w.consumed)
    requires SessionsOk(w.db.payments, w.sessions)
    requires payment.checkoutId.Some? ==> b in w.sessions && Some(w.sessions[b].checkoutId) == payment.checkoutId
    ensures EvidenceOk(w'.db, w'.consumed) && SessionsOk(w'.db.payments, w'.sessions)
  {
    RewrittenLater(w, w', b, payment);
    forall c | c in w'.db.payments && c < |w'.db.bookings| && Purchased(w'.db.bookings[c].status)
      ensures Proved(w'.consumed, c, w'.db.payments[c].checkoutId, w'.db.bookings[c].totalCents)
    {
      EvidenceCarries(w, w', c);
    }
  }

  lemma RewrittenKeeps(w: World, w': World, b: nat, payment: Payment)
    requires Inv(w) && Rewritten(w, w', b, payment)
    requires payment.checkoutId.Some? ==> b in w.sessions && Some(w.sessions[b].checkoutId) == payment.checkoutId
    ensures Inv(w') && Later(w, w')
  {
    hide FlightOk, RowsOk, Later, EvidenceOk, SessionsOk, ReviewOk;
    PaymentKeeps(w.db, b, payment);
    RewrittenLater(w, w', b, payment);
    RewrittenRecords(w, w', b, payment);
    FlightsCarry(w, w', multiset{}, multiset{});
    ReviewsCarry(w.db, w.now, w'.db, w'.now);
  }

  lemma CheckoutWriteKeeps(w: World, b: nat, session: Session)
    requires Inv(w) && FlightOk(w.db, w.sessions, w.refunds, CheckoutWrite(b, session))
    ensures var w' := w.(db := SetPayment(w.db, b, OpenedPayment(w.db.payments[b], session)));
      Inv(w') && Later(w, w')
  {
    hide RowsOk, ReviewStateOk, FlightsOk, EvidenceOk, RefundsOk, ReturnsOk, ConsumedOk, ProvenanceOk, Later;
    var w' := w.(db := SetPayment(w.db, b, OpenedPayment(w.db.payments[b], session)));
    assert SessionsOk(w.db.payments, w.sessions);
    RewrittenKeeps(w, w', b, OpenedPayment(w.db.payments[b], session));
  }

  ghost predicate CheckoutFlight(f: Flight) {
    f.CheckoutOwned? || f.CheckoutLoad? || f.CheckoutCall? || f.CheckoutWrite?
  }

  lemma OwnedHasPayment(db: Db, b: nat)
    requires RowsOk(db) && b < |db.bookings| && db.bookings[b].totalCents != 0
    ensures b in db.payments
  {
  }

  lemma AdvanceCheckoutKeeps(w: World, f: Flight, reply: Reply)
    requires Inv(w) && CheckoutFlight(f) && FlightOk(w.db, w.sessions, w.refunds, f)
    ensures Inv(AdvanceCheckout(w, f, reply)) && Later(w, AdvanceCheckout(w, f, reply))
  {
    hide RowsOk, ReviewStateOk, OpsOk, Later;
    LaterReflexive(w);
    match f {
      case CheckoutOwned(user, b) =>
        if w.db.bookings[b].totalCents != 0 {
          OwnedHasPayment(w.db, b);
          WithKeeps(w, CheckoutLoad(b));
        }
      case CheckoutLoad(b) => WithKeeps(w, CheckoutCall(b));
      case CheckoutCall(b) =>
        if (reply.Opened? || reply.OpenedButLost?) && SessionPossible(w.sessions, b, reply.session) {
          var w1 := w.(sessions := w.sessions[b := reply.session]);
          SessionKeeps(w, b, reply.session);
          WithKeeps(w1, CheckoutWrite(b, reply.session));
          LaterTransitive(w, w1, With(w1, CheckoutWrite(b, reply.session)));
        }
      case CheckoutWrite(b, session) => CheckoutWriteKeeps(w, b, session);
    }
  }

  // --- refund awaits ---

  lemma PaymentStatusKeeps(w: World, b: nat, payment: Payment)
    requires Inv(w) && b in w.db.payments
    requires payment == w.db.payments[b].(status := payment.status, refundId := payment.refundId)
    ensures var w' := w.(db := SetPayment(w.db, b, payment)); Inv(w') && Later(w, w')
  {
    var w' := w.(db := SetPayment(w.db, b, payment));
    hide RowsOk, ReviewStateOk, FlightOk;
    RewrittenKeeps(w, w', b, payment);
  }

  lemma FinalizeMoves(w: World, b: nat, refundId: string, amount: int)
    requires Inv(w) && InRefund(w.db.bookings, b) && RefundFact(b, amount) in w.refunds
    requires FinalizeTx(w.db, w.now, b, refundId, amount).Commit?
    ensures var tx := FinalizeTx(w.db, w.now, b, refundId, amount);
      var w' := w.(db := tx.db, returned := Return(w.returned, b, tx.value.returned));
      && Moved(w, w', b) && Accounted(w, w', b) && PastStays(w, w', b) && w'.db.events == w.db.events
  {
    hide OpsOk, ReviewStateOk;
    if b in w.db.payments && w.db.bookings[b].status != Cancelled {
      ReleaseMoves(w.db, b, Cancelled, w.now);
    }
  }

  lemma FinalizeStep(w: World, b: nat, refundId: string, amount: int)
    requires Inv(w) && InRefund(w.db.bookings, b) && RefundFact(b, amount) in w.refunds
    requires FinalizeTx(w.db, w.now, b, refundId, amount).Commit?
    ensures var tx := FinalizeTx(w.db, w.now, b, refundId, amount);
      var w' := w.(db := tx.db, returned := Return(w.returned, b, tx.value.returned));
      Inv(w') && Later(w, w')
  {
    hide RowsOk, ReviewStateOk, Moved, Accounted, PastStays, Later, FinalizeTx;
    var tx := FinalizeTx(w.db, w.now, b, refundId, amount);
    FinalizeKeeps(w.db, w.now, b, refundId, amount);
    FinalizeMoves(w, b, refundId, amount);
    MovedKeeps(w, w.(db := tx.db, returned := Return(w.returned, b, tx.value.returned)), b);
  }

  function Failed(w: World, b: nat): World
    requires b < |w.db.bookings|
  {
    w.(db := w.db.(bookings := w.db.bookings[b := w.db.bookings[b].(status := CancellationFailed)]))
  }

  lemma FailBookingKeeps(w: World, b: nat)
    requires Inv(w) && InRefund(w.db.bookings, b)
    ensures Inv(Failed(w, b)) && Later(w, Failed(w, b))
  {
    FailBookingMoves(w, b);
    hide RowsOk, ReviewStateOk, Moved, Accounted, PastStays, Later;
    MovedKeeps(w, Failed(w, b), b);
  }

  lemma FailBookingMoves(w: World, b: nat)
    requires RowsOk(w.db) && InRefund(w.db.bookings, b)
    ensures var w' := Failed(w, b);
      Moved(w, w', b) && Accounted(w, w', b) && PastStays(w, w', b) && RowsOk(w'.db)
  {
    assert PhaseOk(w.db.bookings[b]);
    StatusKeeps(w.db, b, Failed(w, b).db.bookings[b]);
  }

  lemma AdvanceRefundKeeps(w: World, f: Flight, reply: Reply)
    requires Inv(w) && !CheckoutFlight(f) && FlightOk(w.db, w.sessions, w.refunds, f)
    ensures Inv(AdvanceRefund(w, f, reply)) && Later(w, AdvanceRefund(w, f, reply))
  {
    hide RowsOk, ReviewStateOk, OpsOk, Later, FinalizeTx;
    var b := f.booking;
    LaterReflexive(w);
    match f {
      case RefundLoad(_) =>
        PaidAmount(w.db, b);
        if w.db.payments[b].paymentId.Some? {
          WithKeeps(w, RefundCall(b, w.db.payments[b].paymentId.value, w.db.payments[b].amountCents));
        }
      case RefundCall(_, _, amount) => RefundCallKeeps(w, b, amount, reply);
      case RefundWrite(_, refundId, outcome, amount) => RefundWriteKeeps(w, b, refundId, outcome, amount);
        WithKeeps(w, FailPayment(b));
      case Finalize(_, refundId, amount, _) =>
        WithKeeps(w, FailPayment(b));
        if FinalizeTx(w.db, w.now, b, refundId, amount).Commit? {
          FinalizeStep(w, b, refundId, amount);
        }
      case FailPayment(_) =>
        PaidAmount(w.db, b);
        var w1 := w.(db := SetPayment(w.db, b, w.db.payments[b].(status := RefundFailed)));
        PaymentStatusKeeps(w, b, w1.db.payments[b]);
        WithKeeps(w1, FailBooking(b));
        LaterTransitive(w, w1, With(w1, FailBooking(b)));
      case FailBooking(_) => FailBookingKeeps(w, b);
      case InspectCall(_, refundId) => InspectKeeps(w, b, refundId, reply);
      case InspectFailed(_) =>
        PaidAmount(w.db, b);
        PaymentStatusKeeps(w, b, w.db.payments[b].(status := RefundFailed));
    }
  }

  lemma PaidAmount(db: Db, b: nat)
    requires RowsOk(db) && InRefund(db.bookings, b)
    ensures b in db.payments && db.payments[b].amountCents == db.bookings[b].totalCents
  {
  }

  lemma RefundCallKeeps(w: World, b: nat, amount: int, reply: Reply)
    requires Inv(w) && InRefund(w.db.bookings, b) && amount == w.db.bookings[b].totalCents
    ensures forall paymentId :: var w' := AdvanceRefund(w, RefundCall(b, paymentId, amount), reply);
      Inv(w') && Later(w, w')
  {
    hide RowsOk, ReviewStateOk, OpsOk, Later;
    LaterReflexive(w);
    if reply.RefundAnswer? {
      var w1 := if reply.outcome.Succeeded? then w.(refunds := w.refunds + {RefundFact(b, amount)}) else w;
      FactKeeps(w, RefundFact(b, amount));
      var f := RefundWrite(b, reply.refundId, reply.outcome, amount);
      WithKeeps(w1, f);
      LaterTransitive(w, w1, With(w1, f));
    } else {
      WithKeeps(w, FailPayment(b));
    }
  }

  lemma RefundWriteKeeps(w: World, b: nat, refundId: string, outcome: RefundOutcome, amount: int)
    requires Inv(w) && FlightOk(w.db, w.sessions, w.refunds, RefundWrite(b, refundId, outcome, amount))
    ensures var w' := AdvanceRefund(w, RefundWrite(b, refundId, outcome, amount), Done); Inv(w') && Later(w, w')
  {
    hide RowsOk, ReviewStateOk, OpsOk, Later;
    PaidAmount(w.db, b);
    if RefundIdTaken(w.db.payments, b, refundId) {
      WithKeeps(w, FailPayment(b));
    } else {
      var payment := RefundedPayment(w.db.payments[b], refundId, outcome);
      var w1 := w.(db := SetPayment(w.db, b, payment));
      PaymentStatusKeeps(w, b, payment);
      if outcome.Succeeded? {
        WithKeeps(w1, Finalize(b, refundId, amount, FromRefund));
        LaterTransitive(w, w1, With(w1, Finalize(b, refundId, amount, FromRefund)));
      }
    }
  }

  lemma InspectKeeps(w: World, b: nat, refundId: string, reply: Reply)
    requires Inv(w) && InRefund(w.db.bookings, b)
    ensures var w' := AdvanceRefund(w, InspectCall(b, refundId), reply); Inv(w') && Later(w, w')
  {
    hide RowsOk, ReviewStateOk, OpsOk, Later;
    LaterReflexive(w);
    if reply.Inspection? {
      if reply.outcome.Succeeded? {
        var fact := RefundFact(b, reply.amountCents);
        var w1 := w.(refunds := w.refunds + {fact});
        FactKeeps(w, fact);
        WithKeeps(w1, Finalize(b, refundId, reply.amountCents, FromReconcile));
        LaterTransitive(w, w1, With(w1, Finalize(b, refundId, reply.amountCents, FromReconcile)));
      }
      WithKeeps(w, InspectFailed(b));
    }
  }

  lemma FlightKnown(w: World, f: Flight)
    requires Inv(w) && f in w.flights
    ensures FlightOk(w.db, w.sessions, w.refunds, f)
  {
  }

  lemma AdvanceStep(w: World, f: Flight, reply: Reply)
    requires Inv(w)
    ensures Inv(ApplyAdvance(w, f, reply)) && Later(w, ApplyAdvance(w, f, reply))
  {
    hide Inv, Later, AdvanceCheckout, AdvanceRefund, FlightOk;
    LaterReflexive(w);
    if f in w.flights {
      var w1 := Land(w, f);
      FlightKnown(w, f);
      LandKeeps(w, f);
      if CheckoutFlight(f) {
        AdvanceCheckoutKeeps(w1, f, reply);
        LaterTransitive(w, w1, AdvanceCheckout(w1, f, reply));
      } else {
        AdvanceRefundKeeps(w1, f, reply);
        LaterTransitive(w, w1, AdvanceRefund(w1, f, reply));
      }
    }
  }
}
