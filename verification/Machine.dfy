/** The booking backend as a state machine.

    Every database transaction is one step. An operation that calls the payment provider outside a
    transaction is cut at each await: what is left of it is a `Flight`, and any other step may come
    in between. A process may crash at any await, and a statement or call may throw there.
  */
module Machine {
  import opened Rows
  import opened BookingTx
  import opened CatalogTx
  import opened ReviewTx

  /** A provider checkout session. The provider may not know the payment identifier yet. */
  datatype Session = Session(checkoutId: string, paymentId: Option<string>, url: string)

  datatype RefundOutcome = Pending | Succeeded | Failed

  datatype Origin = FromRefund | FromReconcile

  datatype Flight =
    | CheckoutOwned(user: nat, booking: nat)
    | CheckoutLoad(booking: nat)
    | CheckoutCall(booking: nat)
    | CheckoutWrite(booking: nat, session: Session)
    | RefundLoad(booking: nat)
    | RefundCall(booking: nat, paymentId: string, amountCents: int)
    | RefundWrite(booking: nat, refundId: string, outcome: RefundOutcome, amountCents: int)
    | Finalize(booking: nat, refundId: string, amountCents: int, origin: Origin)
    | FailPayment(booking: nat)
    | FailBooking(booking: nat)
    | InspectCall(booking: nat, refundId: string)
    | InspectFailed(booking: nat)

  /** How the environment answers the await a flight is suspended at. */
  datatype Reply =
    | Done
    | Throws
    | Opened(session: Session)
    | OpenedButLost(session: Session)
    | RefundAnswer(refundId: string, outcome: RefundOutcome)
    | Inspection(outcome: RefundOutcome, amountCents: int)

  /** The provider reported that this much went back to the customer of the booking. */
  datatype RefundFact = RefundFact(booking: nat, amountCents: int)

  /** The client request that created a booking. */
  datatype Provenance = Provenance(key: ClientKey, request: Request)

  /** The rows, the clock, the operations in flight, the provider's checkout sessions by idempotency
      key (one per booking), and the history of the run.
    */
  datatype World = World(
    db: Db,
    config: Config,
    now: int,
    flights: multiset<Flight>,
    sessions: map<nat, Session>,
    consumed: set<Event>,
    refunds: set<RefundFact>,
    returned: multiset<nat>,
    provenance: seq<Provenance>)

  datatype Step =
    | Tick(elapsed: nat)
    | CreateTour(input: TourInput)
    | UpdateTour(tour: nat, tourPatch: TourPatch)
    | DeleteTour(tour: nat, mediaRemoved: bool)
    | CreateDeparture(tour: nat, start: int, available: nat, active: bool, checkedAt: int)
    | UpdateDeparture(tour: nat, departure: nat, departurePatch: DeparturePatch, checkedAt: int)
    | DeleteDeparture(tour: nat, departure: nat)
    | Create(verified: bool, key: ClientKey, request: Request)
    | Cancel(user: nat, booking: nat)
    | Deliver(event: Event)
    | Expire(booking: nat)
    | Recover(booking: nat)
    | Reconcile(booking: nat)
    | Advance(flight: Flight, reply: Reply)
    | Crash(flight: Flight)
    | CreateReview(user: nat, tour: nat, rating: nat)
    | UpdateReview(user: nat, tour: nat, review: nat, newRating: Option<nat>)
    | DeleteReview(user: nat, tour: nat, review: nat)

  function Initial(config: Config, now: int): World {
    World(EMPTY, config, now, multiset{}, map[], {}, {}, multiset{}, [])
  }

  // --- flights ---

  function Return(returned: multiset<nat>, b: nat, moved: bool): multiset<nat> {
    if moved then returned + multiset{b} else returned
  }

  function With(w: World, flight: Flight): World {
    w.(flights := w.flights + multiset{flight})
  }

  /** The provider's session for a booking: a repeated idempotency key gets the first session again,
      a new one gets a session whose checkout identifier nobody has.
    */
  predicate SessionPossible(sessions: map<nat, Session>, b: nat, session: Session) {
    if b in sessions then session == sessions[b]
    else forall k | k in sessions :: sessions[k].checkoutId != session.checkoutId
  }

  /** openCheckout after its provider call: the row is overwritten whatever state it has reached. */
  function OpenedPayment(payment: Payment, session: Session): Payment {
    payment.(status := CheckoutOpen,
             checkoutId := Some(session.checkoutId),
             paymentId := if session.paymentId.Some? then session.paymentId else payment.paymentId,
             checkoutUrl := Some(session.url))
  }

  predicate OpenedClashes(payments: map<nat, Payment>, b: nat, session: Session) {
    || CheckoutIdTaken(payments, b, session.checkoutId)
    || (session.paymentId.Some? && PaymentIdTaken(payments, b, session.paymentId.value))
  }

  function RefundedPayment(payment: Payment, refundId: string, outcome: RefundOutcome): Payment {
    payment.(refundId := Some(refundId),
             status := match outcome
                       case Failed => RefundFailed
                       case Succeeded => Refunded
                       case Pending => RefundPending)
  }

  function SetPayment(db: Db, b: nat, payment: Payment): Db {
    db.(payments := db.payments[b := payment])
  }

  function AdvanceCheckout(w: World, f: Flight, reply: Reply): World
    requires f.CheckoutOwned? || f.CheckoutLoad? || f.CheckoutCall? || f.CheckoutWrite?
  {
    var b := f.booking;
    match f
    case CheckoutOwned(user, _) =>
      if b < |w.db.bookings| && w.db.bookings[b].user == user && w.db.bookings[b].totalCents != 0
      then With(w, CheckoutLoad(b)) else w
    case CheckoutLoad(_) =>
      if b in w.db.payments
         && !(w.db.payments[b].status == CheckoutOpen && w.db.payments[b].checkoutUrl.Some?)
      then With(w, CheckoutCall(b)) else w
    case CheckoutCall(_) =>
      if reply.Opened? && SessionPossible(w.sessions, b, reply.session) then
        With(w.(sessions := w.sessions[b := reply.session]), CheckoutWrite(b, reply.session))
      else if reply.OpenedButLost? && SessionPossible(w.sessions, b, reply.session) then
        w.(sessions := w.sessions[b := reply.session])
      else w
    case CheckoutWrite(_, session) =>
      if reply == Done && b in w.db.payments && !OpenedClashes(w.db.payments, b, session)
      then w.(db := SetPayment(w.db, b, OpenedPayment(w.db.payments[b], session)))
      else w
  }

  function AdvanceRefund(w: World, f: Flight, reply: Reply): World
    requires !(f.CheckoutOwned? || f.CheckoutLoad? || f.CheckoutCall? || f.CheckoutWrite?)
  {
    var b := f.booking;
    match f
    case RefundLoad(_) =>
      if b in w.db.payments && w.db.payments[b].paymentId.Some?
      then With(w, RefundCall(b, w.db.payments[b].paymentId.value, w.db.payments[b].amountCents))
      else w
    case RefundCall(_, _, amount) =>
      if reply.RefundAnswer? then
        With(w.(refunds := if reply.outcome.Succeeded? then w.refunds + {RefundFact(b, amount)} else w.refunds),
             RefundWrite(b, reply.refundId, reply.outcome, amount))
      else With(w, FailPayment(b))
    case RefundWrite(_, refundId, outcome, amount) =>
      if reply == Done && b in w.db.payments && !RefundIdTaken(w.db.payments, b, refundId) then
        var w' := w.(db := SetPayment(w.db, b, RefundedPayment(w.db.payments[b], refundId, outcome)));
        if outcome.Succeeded? then With(w', Finalize(b, refundId, amount, FromRefund)) else w'
      else With(w, FailPayment(b))
    case Finalize(_, refundId, amount, origin) =>
      var tx := if reply == Done then FinalizeTx(w.db, w.now, b, refundId, amount) else Abort(UniqueViolation);
      (match tx
       case Commit(db, receipt) => w.(db := db, returned := Return(w.returned, b, receipt.returned))
       case Abort(_) => if origin.FromRefund? then With(w, FailPayment(b)) else w)
    case FailPayment(_) =>
      if reply == Done && b in w.db.payments then
        With(w.(db := SetPayment(w.db, b, w.db.payments[b].(status := RefundFailed))), FailBooking(b))
      else w
    case FailBooking(_) =>
      if reply == Done && b < |w.db.bookings| then
        w.(db := w.db.(bookings := w.db.bookings[b := w.db.bookings[b].(status := CancellationFailed)]))
      else w
    case InspectCall(_, refundId) =>
      if !reply.Inspection? then w
      else (match reply.outcome
            case Succeeded =>
              With(w.(refunds := w.refunds + {RefundFact(b, reply.amountCents)}),
                   Finalize(b, refundId, reply.amountCents, FromReconcile))
            case Failed => With(w, InspectFailed(b))
            case Pending => w)
    case InspectFailed(_) =>
      if reply == Done && b in w.db.payments
      then w.(db := SetPayment(w.db, b, w.db.payments[b].(status := RefundFailed))) else w
  }

  // --- steps ---

  function Keep<T>(w: World, tx: Tx<T>): World {
    match tx
    case Commit(db, _) => w.(db := db)
    case Abort(_) => w
  }

  function ApplyCreate(w: World, verified: bool, key: ClientKey, request: Request): World {
    match CreateTx(w.db, w.config, w.now, verified, key, request)
    case Abort(_) => w
    case Commit(db, b) =>
      With(w.(db := db,
              provenance := if key in w.db.idempotency then w.provenance
                            else w.provenance + [Provenance(key, request)]),
           CheckoutOwned(key.user, b))
  }

  function ApplyCancel(w: World, user: nat, b: nat): World {
    match CancelTx(w.db, w.config, w.now, user, b)
    case Abort(_) => w
    case Commit(db, cancellation) =>
      var w' := w.(db := db, returned := Return(w.returned, b, cancellation.returned));
      if cancellation.refund then With(w', RefundLoad(b)) else w'
  }

  function ApplyDeliver(w: World, e: Event): World {
    match DeliverTx(w.db, w.now, e)
    case Abort(_) => w
    case Commit(db, receipt) =>
      w.(db := db,
         consumed := if e.id in w.db.events then w.consumed else w.consumed + {e},
         refunds := if e.RefundCompleted? && receipt.applied
                    then w.refunds + {RefundFact(e.booking, e.amountCents)} else w.refunds,
         returned := Return(w.returned, e.booking, receipt.returned))
  }

  function ApplyExpire(w: World, b: nat): World {
    match ExpireTx(w.db, w.now, b)
    case Abort(_) => w
    case Commit(db, receipt) => w.(db := db, returned := Return(w.returned, b, receipt.returned))
  }

  predicate Recoverable(db: Db, now: int, b: nat) {
    && b < |db.bookings| && b in db.payments
    && db.bookings[b].status == PendingPayment
    && db.payments[b].status == CheckoutPending
    && db.bookings[b].holdExpiresAt.Some? && db.bookings[b].holdExpiresAt.value > now
  }

  predicate Unresolved(db: Db, b: nat) {
    && b < |db.bookings| && b in db.payments
    && RefundOpen(db.bookings[b].status)
    && (db.payments[b].status == RefundPending || db.payments[b].status == RefundFailed)
  }

  function ApplyReconcile(w: World, b: nat): World {
    if !Unresolved(w.db, b) then w
    else if w.db.payments[b].refundId.None? then With(w, RefundLoad(b))
    else With(w, InspectCall(b, w.db.payments[b].refundId.value))
  }

  function Apply(w: World, step: Step): World {
    match step
    case Tick(elapsed) => w.(now := w.now + elapsed)
    case CreateTour(input) => Keep(w, CreateTourTx(w.db, input))
    case UpdateTour(t, patch) => Keep(w, UpdateTourTx(w.db, t, patch))
    case DeleteTour(t, mediaRemoved) => Keep(w, DeleteTourTx(w.db, t, mediaRemoved))
    case CreateDeparture(t, start, available, active, checkedAt) =>
      if checkedAt > w.now then w
      else Keep(w, CreateDepartureTx(w.db, checkedAt, t, start, available, active))
    case UpdateDeparture(t, d, patch, checkedAt) =>
      if checkedAt > w.now then w else Keep(w, UpdateDepartureTx(w.db, checkedAt, t, d, patch))
    case DeleteDeparture(t, d) => Keep(w, DeleteDepartureTx(w.db, t, d))
    case Create(verified, key, request) => ApplyCreate(w, verified, key, request)
    case Cancel(user, b) => ApplyCancel(w, user, b)
    case Deliver(e) => ApplyDeliver(w, e)
    case Expire(b) => ApplyExpire(w, b)
    case Recover(b) =>
      if Recoverable(w.db, w.now, b) then With(w, CheckoutOwned(w.db.bookings[b].user, b)) else w
    case Reconcile(b) => ApplyReconcile(w, b)
    case Advance(f, reply) => ApplyAdvance(w, f, reply)
    case Crash(f) => w.(flights := w.flights - multiset{f})
    case CreateReview(user, t, rating) => Keep(w, CreateReviewTx(w.db, w.now, user, t, rating))
    case UpdateReview(user, t, id, rating) => Keep(w, UpdateReviewTx(w.db, user, t, id, rating))
    case DeleteReview(user, t, id) => Keep(w, DeleteReviewTx(w.db, user, t, id))
  }

  function ApplyAdvance(w: World, f: Flight, reply: Reply): World {
    if f !in w.flights then w
    else
      var w' := w.(flights := w.flights - multiset{f});
      if f.CheckoutOwned? || f.CheckoutLoad? || f.CheckoutCall? || f.CheckoutWrite?
      then AdvanceCheckout(w', f, reply)
      else AdvanceRefund(w', f, reply)
  }

  function Run(w: World, steps: seq<Step>): World
    decreases |steps|
  {
    if steps == [] then w else Run(Apply(w, steps[0]), steps[1..])
  }

  lemma RunOn(w: World, steps: seq<Step>)
    requires steps != []
    ensures Run(w, steps) == Run(Apply(w, steps[0]), steps[1..])
  {
  }

  lemma RunFour(w: World, steps: seq<Step>)
    requires |steps| == 4
    ensures Run(w, steps) == Apply(Apply(Apply(Apply(w, steps[0]), steps[1]), steps[2]), steps[3])
  {
    hide Apply;
    RunOn(w, steps);
    RunOn(Apply(w, steps[0]), steps[1..]);
    RunOn(Apply(Apply(w, steps[0]), steps[1]), steps[2..]);
    assert steps[1..][1..] == steps[2..] && steps[2..][1..] == [steps[3]];
  }

  lemma {:induction false} RunConcat(w: World, first: seq<Step>, second: seq<Step>)
    ensures Run(w, first + second) == Run(Run(w, first), second)
    decreases |first|
  {
    hide Apply;
    if first == [] {
      assert first + second == second;
    } else {
      assert (first + second)[1..] == first[1..] + second;
      RunConcat(Apply(w, first[0]), first[1..], second);
    }
  }
}
