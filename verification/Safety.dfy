/** Safety over every run: the main theorems of the booking machine. */
module Safety {
  import opened Rows
  import opened Seats
  import opened BookingTx
  import opened ReviewTx
  import opened Machine
  import opened Invariant
  import opened RowsKept
  import opened MovesKept
  import opened StepsKept
  import opened BookingSteps

  lemma InitialInv(config: Config, now: int)
    ensures Inv(Initial(config, now))
  {
  }

  /** One step, whatever it is, keeps the invariant and only moves forward. */
  lemma StepKeeps(w: World, step: Step)
    requires Inv(w)
    ensures Inv(Apply(w, step)) && Later(w, Apply(w, step))
  {
    hide Inv, Later;
    match step {
      case Tick(elapsed) => TickKeeps(w, elapsed);
      case CreateTour(input) => CreateTourStep(w, input);
      case UpdateTour(t, patch) => UpdateTourStep(w, t, patch);
      case DeleteTour(t, mediaRemoved) => DeleteTourStep(w, t, mediaRemoved);
      case CreateDeparture(t, start, available, active, checkedAt) =>
        CreateDepartureStep(w, t, start, available, active, checkedAt);
      case UpdateDeparture(t, d, patch, checkedAt) => UpdateDepartureStep(w, t, d, patch, checkedAt);
      case DeleteDeparture(t, d) => DeleteDepartureStep(w, t, d);
      case Create(verified, key, request) => CreateStep(w, verified, key, request);
      case Cancel(user, b) => CancelStep(w, user, b);
      case Deliver(e) => DeliverStep(w, e);
      case Expire(b) => ExpireStep(w, b);
      case Recover(b) => RecoverStep(w, b);
      case Reconcile(b) => ReconcileStep(w, b);
      case Advance(f, reply) => AdvanceStep(w, f, reply);
      case Crash(f) => LandKeeps(w, f);
      case CreateReview(_, _, _) => ReviewStep(w, step);
      case UpdateReview(_, _, _, _) => ReviewStep(w, step);
      case DeleteReview(_, _, _) => ReviewStep(w, step);
    }
  }

  lemma {:induction false} RunKeeps(w: World, steps: seq<Step>)
    requires Inv(w)
    ensures Inv(Run(w, steps)) && Later(w, Run(w, steps))
    decreases |steps|
  {
    hide Inv, Later, Apply;
    LaterReflexive(w);
    if steps != [] {
      StepKeeps(w, steps[0]);
      RunKeeps(Apply(w, steps[0]), steps[1..]);
      LaterTransitive(w, Apply(w, steps[0]), Run(w, steps));
    }
  }

  /** The state a run of the backend reaches from an empty database. */
  function Reached(config: Config, now: int, steps: seq<Step>): World {
    Run(Initial(config, now), steps)
  }

  lemma ReachedInv(config: Config, now: int, steps: seq<Step>)
    ensures Inv(Reached(config, now, steps))
  {
    hide Inv, Later;
    assert Inv(Initial(config, now)) by { InitialInv(config, now); }
    RunKeeps(Initial(config, now), steps);
  }

  // --- inventory ---

  /** No overselling: on every run each departure's reserved seats are exactly those of its
      unreleased bookings, and a live departure's inventory exists and fits its live tour.
    */
  lemma NeverOversold(config: Config, now: int, steps: seq<Step>, d: nat)
    requires d < |Reached(config, now, steps).db.departures|
    ensures var db := Reached(config, now, steps).db; var departure := db.departures[d];
      && departure.available >= 0
      && departure.reserved == Held(db.bookings, d)
      && (departure.deleted ==> departure.reserved == 0)
      && (!departure.deleted ==>
            && departure.tour < |db.tours| && !db.tours[departure.tour].deleted
            && departure.available + departure.reserved <= db.tours[departure.tour].maximum)
  {
    ReachedInv(config, now, steps);
    hide Run;
    var db := Reached(config, now, steps).db;
    assert SeatOk(db.tours, db.departures[d], Held(db.bookings, d));
  }

  /** The guard against inconsistent inventory is unreachable: no operation of any run throws it. */
  lemma InventoryNeverInconsistent(config: Config, now: int, steps: seq<Step>, user: nat, b: nat,
                                   e: Event, refundId: string, amount: int)
    ensures var w := Reached(config, now, steps);
      && CancelTx(w.db, w.config, w.now, user, b) != Abort(InventoryInconsistent)
      && DeliverTx(w.db, w.now, e) != Abort(InventoryInconsistent)
      && ExpireTx(w.db, w.now, b) != Abort(InventoryInconsistent)
      && FinalizeTx(w.db, w.now, b, refundId, amount) != Abort(InventoryInconsistent)
  {
    ReachedInv(config, now, steps);
    hide Run, OpsOk, ReviewStateOk;
    var w := Reached(config, now, steps);
    if b < |w.db.bookings| {
      ReleaseCommits(w.db, b, Cancelled, w.now);
      ReleaseCommits(w.db, b, Expired, w.now);
    }
    EventKeeps(w.db, e.id);
    var db1 := w.db.(events := w.db.events + {e.id});
    if e.booking < |w.db.bookings| {
      ReleaseCommits(db1, e.booking, Cancelled, w.now);
      ReleaseCommits(db1, e.booking, Expired, w.now);
    }
  }

  /** Seats go back exactly once: a booking has returned its seats once if it is marked released and
      never otherwise, and the mark follows the status except for cancellation_failed.
    */
  lemma ReleasedOnce(config: Config, now: int, steps: seq<Step>, b: nat)
    requires b < |Reached(config, now, steps).db.bookings|
    ensures var w := Reached(config, now, steps); var row := w.db.bookings[b];
      && w.returned[b] == (if row.releasedAt.Some? then 1 else 0)
      && (row.status == PendingPayment || row.status == Confirmed || row.status == CancellationPending ==>
            w.returned[b] == 0)
      && (row.status == Expired || row.status == Cancelled ==> w.returned[b] == 1)
  {
    ReachedInv(config, now, steps);
    hide Run;
    assert PhaseOk(Reached(config, now, steps).db.bookings[b]);
  }

  /** While a booking is unreleased its departure stands as bought, whatever administrators do. */
  lemma SnapshotStands(config: Config, now: int, steps: seq<Step>, b: nat)
    requires b < |Reached(config, now, steps).db.bookings|
    requires Reached(config, now, steps).db.bookings[b].releasedAt.None?
    ensures var db := Reached(config, now, steps).db; var row := db.bookings[b];
      && row.departure < |db.departures|
      && db.departures[row.departure].active && !db.departures[row.departure].deleted
      && db.departures[row.departure].start == row.start
      && db.departures[row.departure].tour == row.tour
      && row.tour < |db.tours| && !db.tours[row.tour].deleted
  {
    ReachedInv(config, now, steps);
    hide Run;
    var db := Reached(config, now, steps).db;
    assert SnapshotOk(db.departures, db.bookings[b]);
    var d := db.bookings[b].departure;
    assert SeatOk(db.tours, db.departures[d], Held(db.bookings, d));
  }

  // --- status ---

  lemma BookingRunsLater(config: Config, now: int, before: seq<Step>, after: seq<Step>, b: nat)
    requires b < |Reached(config, now, before).db.bookings|
    ensures var w := Reached(config, now, before); var w' := Run(w, after);
      && b < |w'.db.bookings| && BookingLater(w.db.bookings[b], w'.db.bookings[b])
  {
    ReachedInv(config, now, before);
    RunKeeps(Reached(config, now, before), after);
    hide Run, Inv, BookingLater;
  }

  /** From any reachable state, through any further run, a status only moves forward. */
  lemma StatusForward(config: Config, now: int, before: seq<Step>, after: seq<Step>, b: nat)
    requires b < |Reached(config, now, before).db.bookings|
    ensures var w := Reached(config, now, before); var w' := Run(w, after);
      && b < |w'.db.bookings|
      && var row, row' := w.db.bookings[b], w'.db.bookings[b];
        && CanReach(row.status, row'.status, row.totalCents)
        && (row.status == Expired ==> row'.status == Expired)
        && (row.status == Cancelled && row.totalCents == 0 ==> row'.status == Cancelled)
        && (row.status != PendingPayment && row.status != Confirmed ==> row'.status != Confirmed)
        && (Refunding(row.status) && row.totalCents > 0 ==> Refunding(row'.status))
        && (row.status != PendingPayment ==> row'.status != PendingPayment)
  {
    hide Run, Inv, Later;
    BookingRunsLater(config, now, before, after, b);
  }

  /** Once released, a booking whose status fell back to cancellation_failed never leaves it. */
  lemma StuckAfterRelease(config: Config, now: int, before: seq<Step>, after: seq<Step>, b: nat)
    requires b < |Reached(config, now, before).db.bookings|
    requires var row := Reached(config, now, before).db.bookings[b];
      row.status == CancellationFailed && row.releasedAt.Some?
    ensures var w' := Run(Reached(config, now, before), after);
      && b < |w'.db.bookings| && w'.db.bookings[b].status == CancellationFailed
      && w'.returned[b] == 1
  {
    ReachedInv(config, now, before);
    var w := Reached(config, now, before);
    RunKeeps(w, after);
    hide Run;
    assert BookingLater(w.db.bookings[b], Run(w, after).db.bookings[b]);
  }

  // --- money ---

  /** A booking that costs something is confirmed, or in any cancellation state, only if a paid
      completed event with its current checkout, its amount and its currency was consumed.
    */
  lemma ConfirmedOnlyIfPaid(config: Config, now: int, steps: seq<Step>, b: nat)
    requires var db := Reached(config, now, steps).db;
      b < |db.bookings| && db.bookings[b].totalCents > 0 && Purchased(db.bookings[b].status)
    ensures var w := Reached(config, now, steps);
      && b in w.db.payments
      && exists e :: e in w.consumed
           && Proves(e, b, w.db.payments[b].checkoutId, w.db.bookings[b].totalCents)
  {
    ReachedInv(config, now, steps);
    hide Run;
    var w := Reached(config, now, steps);
    assert Proved(w.consumed, b, w.db.payments[b].checkoutId, w.db.bookings[b].totalCents);
  }

  /** After a purchase, seats go back only once the provider reported a refund of the full amount. */
  lemma SeatsReturnOnlyIfRefunded(config: Config, now: int, steps: seq<Step>, b: nat)
    requires var w := Reached(config, now, steps);
      && b < |w.db.bookings| && w.db.bookings[b].totalCents > 0
      && w.db.bookings[b].status != Expired && w.returned[b] > 0
    ensures var w := Reached(config, now, steps);
      RefundFact(b, w.db.bookings[b].totalCents) in w.refunds
  {
    ReachedInv(config, now, steps);
    hide Run;
  }

  // --- reviews ---

  /** Every review is backed, now and forever, by its author's confirmed booking of a past departure. */
  lemma ReviewsStayBacked(config: Config, now: int, steps: seq<Step>, i: nat)
    requires i < |Reached(config, now, steps).db.reviews|
    ensures var w := Reached(config, now, steps); var review := w.db.reviews[i];
      exists b :: 0 <= b < |w.db.bookings| && Qualifies(w.db.bookings[b], w.now, review.user, review.tour)
  {
    ReachedInv(config, now, steps);
    hide Run;
    var w := Reached(config, now, steps);
    assert ReviewOk(w.db, w.now, w.db.reviews[i]);
  }

  /** A tour's rating is the aggregate of the stored reviews, between 1.00 and 5.00. */
  lemma RatingsAgree(config: Config, now: int, steps: seq<Step>, t: nat)
    requires t < |Reached(config, now, steps).db.tours|
    ensures var db := Reached(config, now, steps).db; var tour := db.tours[t];
      && tour.ratingCount == Count(db.reviews, t)
      && tour.ratingAverage == Average(db.reviews, t)
      && (tour.ratingAverage.None? <==> tour.ratingCount == 0)
      && (tour.ratingAverage.Some? ==> 100 <= tour.ratingAverage.value <= 500)
  {
    ReachedInv(config, now, steps);
    hide Run;
    var w := Reached(config, now, steps);
    assert forall i :: 0 <= i < |w.db.reviews| ==> ReviewOk(w.db, w.now, w.db.reviews[i]);
    AverageBounds(w.db.reviews, t);
  }

  // --- idempotent creation ---

  /** Any number of create calls under one client key make at most one booking, one payment and one
      seat transfer: two bookings of one key are the same booking, and it has the requested shape.
    */
  lemma OneBookingPerKey(config: Config, now: int, steps: seq<Step>, b: nat, c: nat)
    requires var w := Reached(config, now, steps);
      b < |w.provenance| && c < |w.provenance| && w.provenance[b].key == w.provenance[c].key
    ensures b == c
  {
    ReachedInv(config, now, steps);
    hide Run;
  }

  lemma ProvenanceCovers(config: Config, now: int, steps: seq<Step>)
    ensures var w := Reached(config, now, steps);
      && |w.provenance| == |w.db.bookings|
      && forall b :: 0 <= b < |w.db.bookings| ==>
           && w.db.bookings[b].user == w.provenance[b].key.user
           && w.db.bookings[b].departure == w.provenance[b].request.departure
           && w.db.bookings[b].quantity == |w.provenance[b].request.travelers|
           && (b in w.db.payments <==> w.db.bookings[b].totalCents > 0)
  {
    ReachedInv(config, now, steps);
    hide Run;
  }

  /** A key that succeeded once answers the same booking ever after; another request is refused. In
      both cases no row changes.
    */
  lemma ReplayAnswersTheSame(config: Config, now: int, before: seq<Step>, after: seq<Step>,
                             key: ClientKey, request: Request, again: Request)
    requires var w := Reached(config, now, before);
      CreateTx(w.db, w.config, w.now, true, key, request).Commit?
    requires again.travelers != []
    ensures var w := Reached(config, now, before);
      var w' := Run(Apply(w, Create(true, key, request)), after);
      var first := CreateTx(w.db, w.config, w.now, true, key, request).value;
      var second := CreateTx(w'.db, w'.config, w'.now, true, key, again);
      second == if again == request then Commit(w'.db, first) else Abort(KeyReused)
  {
    hide Run, Inv, Later;
    ReachedInv(config, now, before);
    var w := Reached(config, now, before);
    var w1 := Apply(w, Create(true, key, request));
    StepKeeps(w, Create(true, key, request));
    CreateRecords(w, key, request);
    RunKeeps(w1, after);
    ReplayKept(w1, Run(w1, after), key);
  }

  lemma CreateRecords(w: World, key: ClientKey, request: Request)
    requires CreateTx(w.db, w.config, w.now, true, key, request).Commit?
    ensures var w1 := Apply(w, Create(true, key, request));
      && ValidKey(key.key) && request.travelers != []
      && key in w1.db.idempotency
      && w1.db.idempotency[key] == Replay(request, CreateTx(w.db, w.config, w.now, true, key, request).value)
  {
  }

  lemma ReplayKept(w: World, w': World, key: ClientKey)
    requires Later(w, w') && key in w.db.idempotency
    ensures key in w'.db.idempotency && w'.db.idempotency[key] == w.db.idempotency[key]
  {
  }

  /** A booking's provider checkout never changes once it is stored. */
  lemma CheckoutNeverChanges(config: Config, now: int, before: seq<Step>, after: seq<Step>, b: nat)
    requires var w := Reached(config, now, before);
      b in w.db.payments && w.db.payments[b].checkoutId.Some?
    ensures var w := Reached(config, now, before); var w' := Run(w, after);
      b in w'.db.payments && w'.db.payments[b].checkoutId == w.db.payments[b].checkoutId
  {
    ReachedInv(config, now, before);
    RunKeeps(Reached(config, now, before), after);
    hide Run, Inv;
  }
}
