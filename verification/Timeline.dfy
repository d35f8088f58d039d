/** Every way a booking row can change, and what its price and its dates therefore say on every run. */
module Timeline {
  import opened Rows
  import opened Pricing
  import opened Seats
  import opened BookingTx
  import opened Machine
  import opened Invariant
  import opened Transitions
  import opened Safety

  /** The moves of one booking row in one step at instant `now`. */
  predicate Move(row: Booking, row': Booking, now: int, cutoffMs: nat) {
    || row' == row
    || (row.status == PendingPayment && row' == row.(status := Confirmed, confirmedAt := Some(now)))
    || (row.status == PendingPayment && row' == ReleasedRow(row, Expired, now))
    || (row.status == Confirmed && row.totalCents == 0 && now <= row.start - cutoffMs
        && row' == ReleasedRow(row, Cancelled, now))
    || (row.status == Confirmed && row.totalCents > 0 && now <= row.start - cutoffMs
        && row' == row.(status := CancellationPending, cancellationRequestedAt := Some(now)))
    || (RefundOpen(row.status) && row.totalCents > 0 && row.releasedAt.None?
        && row' == ReleasedRow(row, Cancelled, now))
    || (Refunding(row.status) && row.totalCents > 0 && row' == row.(status := CancellationFailed))
  }

  lemma ReleaseRow(db: Db, c: nat, status: Status, now: int, b: nat)
    requires c < |db.bookings| && b < |db.bookings|
    ensures Release(db, c, status, now).Commit? ==>
      var row' := Release(db, c, status, now).db.bookings[b];
      && b < |Release(db, c, status, now).db.bookings|
      && if b == c && db.bookings[b].releasedAt.None? then row' == ReleasedRow(db.bookings[b], status, now)
         else row' == db.bookings[b]
  {
  }

  lemma DeliverMoves(w: World, e: Event, b: nat)
    requires RowsOk(w.db) && b < |w.db.bookings|
    ensures b < |ApplyDeliver(w, e).db.bookings|
    ensures Move(w.db.bookings[b], ApplyDeliver(w, e).db.bookings[b], w.now, w.config.cutoffMs)
  {
    hide Release, SeatsOk, SnapshotsOk, PaymentsOk;
    if e.booking < |w.db.bookings| {
      assert PhaseOk(w.db.bookings[e.booking]);
      var db1 := w.db.(events := w.db.events + {e.id});
      ReleaseRow(db1, e.booking, Expired, w.now, b);
      ReleaseRow(db1, e.booking, Cancelled, w.now, b);
    }
  }

  lemma CancelMove(w: World, user: nat, c: nat, b: nat)
    requires RowsOk(w.db) && b < |w.db.bookings|
    ensures b < |ApplyCancel(w, user, c).db.bookings|
    ensures Move(w.db.bookings[b], ApplyCancel(w, user, c).db.bookings[b], w.now, w.config.cutoffMs)
  {
    hide Release, SeatsOk, SnapshotsOk;
    if c < |w.db.bookings| {
      ReleaseRow(w.db, c, Cancelled, w.now, b);
    }
  }

  lemma ExpireMove(w: World, c: nat, b: nat)
    requires b < |w.db.bookings|
    ensures b < |ApplyExpire(w, c).db.bookings|
    ensures Move(w.db.bookings[b], ApplyExpire(w, c).db.bookings[b], w.now, w.config.cutoffMs)
  {
    hide Release;
    if c < |w.db.bookings| {
      ReleaseRow(w.db, c, Expired, w.now, b);
    }
  }

  lemma FinalizeRow(db: Db, now: int, c: nat, refundId: string, amount: int, b: nat)
    requires b < |db.bookings|
    requires c < |db.bookings| ==> RefundOpen(db.bookings[c].status) || db.bookings[c].status == Cancelled
    ensures var tx := FinalizeTx(db, now, c, refundId, amount);
      tx.Commit? ==>
        && b < |tx.db.bookings|
        && if b == c && RefundOpen(db.bookings[b].status) && db.bookings[b].releasedAt.None?
              && b in db.payments
           then tx.db.bookings[b] == ReleasedRow(db.bookings[b], Cancelled, now)
           else tx.db.bookings[b] == db.bookings[b]
  {
    hide Release;
    if c < |db.bookings| {
      ReleaseRow(db, c, Cancelled, now, b);
    }
  }

  lemma AdvanceMove(w: World, f: Flight, reply: Reply, b: nat)
    requires Inv(w) && b < |w.db.bookings|
    ensures b < |ApplyAdvance(w, f, reply).db.bookings|
    ensures Move(w.db.bookings[b], ApplyAdvance(w, f, reply).db.bookings[b], w.now, w.config.cutoffMs)
  {
    hide RowsOk, ReviewStateOk, FinalizeTx;
    if f.booking != b || !(f.Finalize? || f.FailBooking?) {
      AdvanceUnmoved(w, f, reply, b);
    } else if f in w.flights {
      assert FlightOk(w.db, w.sessions, w.refunds, f);
      if f.Finalize? {
        FinalizeRow(w.db, w.now, b, f.refundId, f.amountCents, b);
      }
    }
  }

  /** Whatever the step, a booking row makes one of these moves or none. */
  lemma EveryStepIsAMove(w: World, step: Step, b: nat)
    requires Inv(w) && b < |w.db.bookings|
    ensures b < |Apply(w, step).db.bookings|
    ensures Move(w.db.bookings[b], Apply(w, step).db.bookings[b], w.now, w.config.cutoffMs)
  {
    assert RowsOk(w.db);
    hide Inv, RowsOk, Move, ApplyDeliver, ApplyCancel, ApplyExpire, ApplyAdvance;
    match step {
      case Deliver(e) => DeliverMoves(w, e, b);
      case Expire(c) => ExpireMove(w, c, b);
      case Cancel(user, c) => CancelMove(w, user, c, b);
      case Advance(f, reply) => AdvanceMove(w, f, reply, b);
      case _ =>
        ElsewhereUnmoved(w, step, b);
        NoMove(w.db.bookings[b], w.now, w.config.cutoffMs);
    }
  }

  lemma NoMove(row: Booking, now: int, cutoffMs: nat)
    ensures Move(row, row, now, cutoffMs)
  {
  }

  // --- prices and dates ---

  /** The stored price is the price of the stored unit price, percentage and quantity, and a hold exists
      exactly when there is something to pay.
    */
  ghost predicate PricedOk(row: Booking) {
    && row.discount < 10000
    && Price(row.discountCents, row.discountedUnitPriceCents, row.subtotalCents, row.totalCents)
       == BookingPrice(row.unitPriceCents, row.discount, row.quantity)
    && (row.holdExpiresAt.Some? <==> row.totalCents > 0)
  }

  /** Dates that are set come in order, none lies ahead, and no cancellation was accepted late. */
  ghost predicate DatesOk(row: Booking, now: int, cutoffMs: nat) {
    && (row.confirmedAt.Some? <==> Purchased(row.status))
    && (row.cancelledAt.Some? <==> row.releasedAt.Some? && row.status != Expired)
    && (row.cancelledAt.Some? ==> row.cancelledAt == row.releasedAt)
    && (row.cancellationRequestedAt.Some? <==> Refunding(row.status) && row.totalCents > 0)
    && (row.confirmedAt.Some? ==> row.confirmedAt.value <= now)
    && (row.releasedAt.Some? ==> row.releasedAt.value <= now)
    && (row.cancellationRequestedAt.Some? ==>
          && row.confirmedAt.value <= row.cancellationRequestedAt.value <= row.start - cutoffMs
          && row.cancellationRequestedAt.value <= now
          && (row.releasedAt.Some? ==> row.cancellationRequestedAt.value <= row.releasedAt.value))
    && (row.cancelledAt.Some? && row.totalCents == 0 ==>
          && row.confirmedAt.Some?
          && row.confirmedAt.value <= row.cancelledAt.value <= row.start - cutoffMs)
  }

  lemma MoveKeepsDates(row: Booking, row': Booking, now: int, cutoffMs: nat)
    requires PhaseOk(row) && DatesOk(row, now, cutoffMs) && Move(row, row', now, cutoffMs)
    ensures DatesOk(row', now, cutoffMs)
    ensures PricedOk(row) ==> PricedOk(row')
  {
  }

  lemma LaterDatesOk(row: Booking, now: int, now': int, cutoffMs: nat)
    requires DatesOk(row, now, cutoffMs) && now <= now'
    ensures DatesOk(row, now', cutoffMs)
  {
  }

  lemma NewRowOk(db: Db, config: Config, now: int, user: nat, request: Request)
    requires Bookable(db, now, request.departure) && |request.travelers| > 0
    requires db.tours[db.departures[request.departure].tour].discount < 10000
    ensures var d := request.departure;
      var row := BookingRow(user, d, db.departures[d], db.tours[db.departures[d].tour],
                            |request.travelers|, config, now);
      && PricedOk(row) && DatesOk(row, now, config.cutoffMs)
      && row.unitPriceCents == db.tours[row.tour].priceCents && row.discount == db.tours[row.tour].discount
      && (row.holdExpiresAt.Some? ==> row.holdExpiresAt.value == now + config.holdMs)
  {
    hide BookingPrice;
  }

  ghost predicate TimelineOk(w: World) {
    forall b :: 0 <= b < |w.db.bookings| ==>
      PricedOk(w.db.bookings[b]) && DatesOk(w.db.bookings[b], w.now, w.config.cutoffMs)
  }

  lemma OnlyCreateAdds(w: World, step: Step)
    requires !step.Create?
    ensures Apply(w, step).provenance == w.provenance
  {
    hide CancelTx, DeliverTx, ExpireTx, FinalizeTx;
  }

  lemma CreateKeepsTimeline(w: World, verified: bool, key: ClientKey, request: Request)
    requires RowsOk(w.db) && TimelineOk(w)
    ensures TimelineOk(ApplyCreate(w, verified, key, request))
  {
    hide SeatsOk, SnapshotsOk, PhasesOk, PaymentsOk, PricedOk, DatesOk, BookingRow;
    var tx := CreateTx(w.db, w.config, w.now, verified, key, request);
    if tx.Commit? && key !in w.db.idempotency {
      var t := w.db.departures[request.departure].tour;
      assert w.db.tours[t].discount < 10000;
      NewRowOk(w.db, w.config, w.now, key.user, request);
    }
  }

  lemma StepKeepsTimeline(w: World, step: Step)
    requires Inv(w) && TimelineOk(w)
    ensures TimelineOk(Apply(w, step))
  {
    var w' := Apply(w, step);
    if step.Create? {
      CreateKeepsTimeline(w, step.verified, step.key, step.request);
    } else {
      hide Apply;
      StepKeeps(w, step);
      OnlyCreateAdds(w, step);
      assert ProvenanceOk(w.db, w.provenance) && ProvenanceOk(w'.db, w'.provenance);
      assert |w'.db.bookings| == |w.db.bookings| && w.now <= w'.now && w.config == w'.config;
      hide RowsOk, OpsOk, ReviewStateOk, Later, ProvenanceOk, PricedOk, DatesOk, Move;
      forall b | 0 <= b < |w'.db.bookings|
        ensures PricedOk(w'.db.bookings[b]) && DatesOk(w'.db.bookings[b], w'.now, w'.config.cutoffMs)
      {
        StepKeepsRow(w, step, b);
      }
    }
  }

  lemma StepKeepsRow(w: World, step: Step, b: nat)
    requires Inv(w) && b < |w.db.bookings| && w.now <= Apply(w, step).now
    requires PricedOk(w.db.bookings[b]) && DatesOk(w.db.bookings[b], w.now, w.config.cutoffMs)
    ensures b < |Apply(w, step).db.bookings|
    ensures var row' := Apply(w, step).db.bookings[b];
      PricedOk(row') && DatesOk(row', Apply(w, step).now, w.config.cutoffMs)
  {
    hide Apply, OpsOk, ReviewStateOk, SeatsOk, SnapshotsOk, PaymentsOk, PricedOk, DatesOk, Move;
    assert PhaseOk(w.db.bookings[b]);
    EveryStepIsAMove(w, step, b);
    var row' := Apply(w, step).db.bookings[b];
    MoveKeepsDates(w.db.bookings[b], row', w.now, w.config.cutoffMs);
    LaterDatesOk(row', w.now, Apply(w, step).now, w.config.cutoffMs);
  }

  lemma {:induction false} RunKeepsTimeline(w: World, steps: seq<Step>)
    requires Inv(w) && TimelineOk(w)
    ensures TimelineOk(Run(w, steps))
    decreases |steps|
  {
    hide Inv, TimelineOk, Apply, Later;
    if steps != [] {
      StepKeepsTimeline(w, steps[0]);
      StepKeeps(w, steps[0]);
      RunKeepsTimeline(Apply(w, steps[0]), steps[1..]);
    }
  }

  /** On every run each booking's stored price is exactly the price of what it stores, and what the
      customer does not pay is exactly the discount on every seat.
    */
  lemma PricesStand(config: Config, now: int, steps: seq<Step>, b: nat)
    requires b < |Reached(config, now, steps).db.bookings|
    ensures var row := Reached(config, now, steps).db.bookings[b];
      && PricedOk(row)
      && row.totalCents + row.quantity * row.discountCents == row.subtotalCents
  {
    InitialInv(config, now);
    RunKeepsTimeline(Initial(config, now), steps);
    hide Run, Inv;
    var row := Reached(config, now, steps).db.bookings[b];
    DiscountAccounted(row.unitPriceCents, row.discount, row.quantity);
  }

  /** On every run each booking's dates are set exactly when its status says so, come in order, and no
      cancellation was ever accepted after the cutoff.
    */
  lemma DatesStand(config: Config, now: int, steps: seq<Step>, b: nat)
    requires b < |Reached(config, now, steps).db.bookings|
    ensures var w := Reached(config, now, steps); DatesOk(w.db.bookings[b], w.now, config.cutoffMs)
  {
    InitialInv(config, now);
    RunKeepsTimeline(Initial(config, now), steps);
    RunKeeps(Initial(config, now), steps);
    hide Run, Inv;
  }
}
