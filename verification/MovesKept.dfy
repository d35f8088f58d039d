/** Steps that move one booking: what they must establish for it, and why the rest carries over. */
module MovesKept {
  import opened Rows
  import opened Machine
  import opened Invariant
  import opened ReviewsKept

  // --- what carries over from an earlier state ---

  lemma FlightCarries(w: World, w': World, f: Flight)
    requires Later(w, w') && FlightOk(w.db, w.sessions, w.refunds, f)
    ensures FlightOk(w'.db, w'.sessions, w'.refunds, f)
  {
    if f.booking < |w.db.bookings| {
      assert BookingLater(w.db.bookings[f.booking], w'.db.bookings[f.booking]);
    }
  }

  lemma FlightsCarry(w: World, w': World, gone: multiset<Flight>, come: multiset<Flight>)
    requires FlightsOk(w) && Later(w, w')
    requires w'.flights == w.flights - gone + come
    requires forall f :: f in come ==> FlightOk(w'.db, w'.sessions, w'.refunds, f)
    ensures FlightsOk(w')
  {
    hide Later, FlightOk;
    forall f | f in w'.flights ensures FlightOk(w'.db, w'.sessions, w'.refunds, f) {
      if f in w.flights {
        FlightCarries(w, w', f);
      }
    }
  }

  /** Evidence stays: what proved a purchase is still consumed and still names the checkout. */
  lemma EvidenceCarries(w: World, w': World, b: nat)
    requires EvidenceOk(w.db, w.consumed) && Later(w, w')
    requires b in w.db.payments && b < |w.db.bookings| && Purchased(w.db.bookings[b].status)
    ensures Proved(w'.consumed, b, w'.db.payments[b].checkoutId, w'.db.bookings[b].totalCents)
  {
    var e :| e in w.consumed && Proves(e, b, w.db.payments[b].checkoutId, w.db.bookings[b].totalCents);
    assert BookingLater(w.db.bookings[b], w'.db.bookings[b]);
    assert e in w'.consumed && Proves(e, b, w'.db.payments[b].checkoutId, w'.db.bookings[b].totalCents);
  }

  // --- one booking moves ---

  /** Nothing but booking `b`, its payment, its departure, the flights and the history changes. */
  ghost predicate Moved(w: World, w': World, b: nat) {
    && b < |w.db.bookings| == |w'.db.bookings|
    && w'.db.bookings == w.db.bookings[b := w'.db.bookings[b]]
    && BookingLater(w.db.bookings[b], w'.db.bookings[b])
    && PaymentMoved(w.db.payments, w'.db.payments, b)
    && w'.db == w.db.(departures := w'.db.departures, bookings := w'.db.bookings,
                      payments := w'.db.payments, events := w'.db.events)
    && w' == w.(db := w'.db, flights := w'.flights, consumed := w'.consumed,
                refunds := w'.refunds, returned := w'.returned)
    && w.db.events <= w'.db.events && w.consumed <= w'.consumed && w.refunds <= w'.refunds
  }

  ghost predicate PaymentMoved(payments: map<nat, Payment>, payments': map<nat, Payment>, b: nat) {
    || payments' == payments
    || (b in payments && b in payments'
        && payments' == payments[b := payments'[b]]
        && payments'[b].id == payments[b].id
        && payments'[b].checkoutId == payments[b].checkoutId)
  }

  lemma MovedLater(w: World, w': World, b: nat)
    requires Moved(w, w', b)
    ensures Later(w, w')
  {
  }

  /** What the step owes for the booking it moves. */
  ghost predicate Accounted(w: World, w': World, b: nat)
    requires Moved(w, w', b)
  {
    var row, row' := w.db.bookings[b], w'.db.bookings[b];
    && (b in w'.db.payments && Purchased(row'.status) && !Purchased(row.status) ==>
          Proved(w'.consumed, b, w'.db.payments[b].checkoutId, row'.totalCents))
    && (row.releasedAt.None? && row'.releasedAt.Some? && row'.status != Expired && row'.totalCents > 0 ==>
          RefundFact(b, row'.totalCents) in w'.refunds)
    && w'.returned == Return(w.returned, b, row.releasedAt.None? && row'.releasedAt.Some?)
  }

  lemma MovedMoney(w: World, w': World, b: nat)
    requires Moved(w, w', b) && Accounted(w, w', b)
    requires EvidenceOk(w.db, w.consumed) && RefundsOk(w.db.bookings, w.refunds)
    requires ReturnsOk(w.db.bookings, w.returned)
    ensures EvidenceOk(w'.db, w'.consumed)
    ensures RefundsOk(w'.db.bookings, w'.refunds)
    ensures ReturnsOk(w'.db.bookings, w'.returned)
  {
    MovedLater(w, w', b);
    forall c | c in w'.db.payments && c < |w'.db.bookings| && Purchased(w'.db.bookings[c].status)
      ensures Proved(w'.consumed, c, w'.db.payments[c].checkoutId, w'.db.bookings[c].totalCents)
    {
      if Purchased(w.db.bookings[c].status) {
        EvidenceCarries(w, w', c);
      }
    }
  }

  lemma MovedRecords(w: World, w': World, b: nat)
    requires Moved(w, w', b)
    requires SessionsOk(w.db.payments, w.sessions) && ProvenanceOk(w.db, w.provenance)
    ensures SessionsOk(w'.db.payments, w'.sessions) && ProvenanceOk(w'.db, w'.provenance)
  {
  }

  /** A step that moves one booking and pays its dues keeps the operations invariant. */
  lemma MovedOps(w: World, w': World, b: nat)
    requires OpsOk(w) && Moved(w, w', b) && Accounted(w, w', b)
    requires ConsumedOk(w'.db.events, w'.consumed)
    requires w'.flights == w.flights
    ensures OpsOk(w') && Later(w, w')
  {
    hide FlightOk, Later, Accounted;
    MovedMoney(w, w', b);
    MovedRecords(w, w', b);
    MovedLater(w, w', b);
    FlightsCarry(w, w', multiset{}, multiset{});
  }

  /** A confirmed booking whose departure is past stays confirmed. */
  ghost predicate PastStays(w: World, w': World, b: nat)
    requires b < |w.db.bookings| && b < |w'.db.bookings|
  {
    w.db.bookings[b].status == Confirmed && w.db.bookings[b].start < w.now ==>
      w'.db.bookings[b].status == Confirmed
  }

  lemma MovedReviews(w: World, w': World, b: nat)
    requires Moved(w, w', b) && ReviewStateOk(w.db, w.now)
    requires PastStays(w, w', b)
    ensures ReviewStateOk(w'.db, w'.now)
  {
    ReviewsCarry(w.db, w.now, w'.db, w'.now);
  }

  lemma MovedKeeps(w: World, w': World, b: nat)
    requires Inv(w) && RowsOk(w'.db)
    requires Moved(w, w', b) && Accounted(w, w', b) && PastStays(w, w', b)
    requires ConsumedOk(w'.db.events, w'.consumed)
    requires w'.flights == w.flights
    ensures Inv(w') && Later(w, w')
  {
    hide RowsOk, FlightOk, Later, Accounted;
    MovedReviews(w, w', b);
    MovedOps(w, w', b);
  }

  // --- only flights move ---

  lemma LaterReflexive(w: World)
    ensures Later(w, w)
  {
  }

  lemma WithKeeps(w: World, f: Flight)
    requires Inv(w) && FlightOk(w.db, w.sessions, w.refunds, f)
    ensures Inv(With(w, f)) && Later(w, With(w, f))
  {
    hide RowsOk, ReviewStateOk, FlightOk;
    assert Later(w, With(w, f));
    FlightsCarry(w, With(w, f), multiset{}, multiset{f});
  }

  function Land(w: World, f: Flight): World {
    w.(flights := w.flights - multiset{f})
  }

  lemma LandKeeps(w: World, f: Flight)
    requires Inv(w)
    ensures Inv(Land(w, f)) && Later(w, Land(w, f))
  {
    hide RowsOk, ReviewStateOk, FlightOk;
    assert Later(w, Land(w, f));
    FlightsCarry(w, Land(w, f), multiset{f}, multiset{});
  }

  /** More refunds may be reported than the rows know of. */
  lemma FactKeeps(w: World, fact: RefundFact)
    requires Inv(w)
    ensures var w' := w.(refunds := w.refunds + {fact}); Inv(w') && Later(w, w')
  {
    hide RowsOk, ReviewStateOk, FlightOk;
    var w' := w.(refunds := w.refunds + {fact});
    assert Later(w, w');
    FlightsCarry(w, w', multiset{}, multiset{});
  }
}
