/** A run on which a finished cancellation is overwritten.

    A customer pays and cancels; the refund call times out although the provider refunds; the refund
    webhook finishes the cancellation; then the failed attempt writes its verdict over it.
  */
module CancelledLost {
  import opened Rows
  import opened BookingTx
  import opened CatalogTx
  import opened Machine
  import opened Safety

  const CONFIG := Config(1_800_000, 172_800_000)
  const START := 200_000_000
  const KEY := ClientKey(7, "key")
  const REQUEST := Request(0, [Traveler("Ann", "ann@example.com", "+12025550123")])
  const SESSION := Session("cs", Some("pi"), "https://checkout.example/cs")
  const PAID := CheckoutCompleted("evt-1", 0, 0, "cs", "pi", 100, "usd", true)
  const REFUNDED := RefundCompleted("evt-2", 0, 0, "pi", None, 100, "usd")

  const BOOKING_STEPS := [
    CreateTour(TourInput(10, 100, 0, true)),
    CreateDeparture(0, START, 5, true, 0),
    Create(true, KEY, REQUEST)]

  const CHECKOUT_STEPS := [
    Advance(CheckoutOwned(7, 0), Done),
    Advance(CheckoutLoad(0), Done),
    Advance(CheckoutCall(0), Opened(SESSION)),
    Advance(CheckoutWrite(0, SESSION), Done)]

  const REFUND_STEPS := [
    Deliver(PAID),
    Cancel(7, 0),
    Advance(RefundLoad(0), Done),
    Advance(RefundCall(0, "pi", 100), Throws)]

  const LATE_STEPS := [
    Deliver(REFUNDED),
    Advance(FailPayment(0), Done),
    Advance(FailBooking(0), Done)]

  function Row(status: Status): Booking {
    Booking(7, 0, 0, status, START, 100, 0, 0, 100, 1, 100, 100, Some(1_800_000), None, None, None, None)
  }

  function At(departure: Departure, row: Booking, payment: Payment): Db {
    Db([TOUR], [departure], [row], map[0 := payment],
       map[KEY := Replay(REQUEST, 0)], {}, [], 0)
  }

  const BOOKED := World(
    At(Departure(0, START, 4, 1, true, false), Row(PendingPayment), NewPayment(0, 100)),
    CONFIG, 0, multiset{CheckoutOwned(7, 0)}, map[], {}, {}, multiset{}, [Provenance(KEY, REQUEST)])

  const OPENED := BOOKED.(
    db := At(Departure(0, START, 4, 1, true, false), Row(PendingPayment),
             Payment(0, CheckoutOpen, 100, Some("cs"), Some("pi"), None, Some(SESSION.url))),
    flights := multiset{},
    sessions := map[0 := SESSION])

  const CONFIRMED := OPENED.(
    db := At(Departure(0, START, 4, 1, true, false), Row(Confirmed).(confirmedAt := Some(0)),
             Payment(0, Paid, 100, Some("cs"), Some("pi"), None, Some(SESSION.url)))
          .(events := {"evt-1"}),
    consumed := {PAID})

  const FAILING := OPENED.(
    db := At(Departure(0, START, 4, 1, true, false),
             Row(CancellationPending).(confirmedAt := Some(0), cancellationRequestedAt := Some(0)),
             Payment(0, RefundPending, 100, Some("cs"), Some("pi"), None, Some(SESSION.url)))
          .(events := {"evt-1"}),
    flights := multiset{FailPayment(0)},
    consumed := {PAID})

  const TOUR := Tour(100, 0, 10, true, false, 0, None)

  const STOCKED := Initial(CONFIG, 0).(
    db := EMPTY.(tours := [TOUR], departures := [Departure(0, START, 5, 0, true, false)]))

  lemma Stocks()
    ensures Apply(Apply(Initial(CONFIG, 0), BOOKING_STEPS[0]), BOOKING_STEPS[1]) == STOCKED
  {
    var w1 := Apply(Initial(CONFIG, 0), BOOKING_STEPS[0]);
    assert w1.db.tours == [TOUR];
  }

  lemma Sells()
    ensures Apply(STOCKED, BOOKING_STEPS[2]) == BOOKED
  {
  }

  lemma Books()
    ensures Run(Initial(CONFIG, 0), BOOKING_STEPS) == BOOKED
  {
    hide Apply;
    var w0 := Initial(CONFIG, 0);
    var w1 := Apply(w0, BOOKING_STEPS[0]);
    Stocks();
    Sells();
    RunOn(w0, BOOKING_STEPS);
    RunOn(w1, BOOKING_STEPS[1..]);
    RunOn(STOCKED, BOOKING_STEPS[1..][1..]);
    assert BOOKING_STEPS[1..][1..][1..] == [];
  }

  lemma Opens()
    ensures Run(BOOKED, CHECKOUT_STEPS) == OPENED
  {
    var w1 := Apply(BOOKED, CHECKOUT_STEPS[0]);
    assert w1 == BOOKED.(flights := multiset{CheckoutLoad(0)});
    var w2 := Apply(w1, CHECKOUT_STEPS[1]);
    assert w2 == BOOKED.(flights := multiset{CheckoutCall(0)});
    var w3 := Apply(w2, CHECKOUT_STEPS[2]);
    assert w3 == BOOKED.(flights := multiset{CheckoutWrite(0, SESSION)}, sessions := map[0 := SESSION]);
    var w4 := Apply(w3, CHECKOUT_STEPS[3]);
    assert w4 == OPENED;
    RunFour(BOOKED, CHECKOUT_STEPS);
  }

  lemma Pays()
    ensures Apply(OPENED, REFUND_STEPS[0]) == CONFIRMED
  {
  }

  lemma CancelCommits()
    ensures CancelTx(CONFIRMED.db, CONFIG, 0, 7, 0) == Commit(FAILING.db, Cancellation(true, false))
  {
  }

  lemma Cancels()
    ensures Apply(CONFIRMED, REFUND_STEPS[1]) == FAILING.(flights := multiset{RefundLoad(0)})
  {
    hide CancelTx;
    CancelCommits();
  }

  lemma CallFails()
    ensures var w := Apply(FAILING.(flights := multiset{RefundLoad(0)}), REFUND_STEPS[2]);
      Apply(w, REFUND_STEPS[3]) == FAILING
  {
    hide Apply;
    LoadsRefund();
    CallThrows();
  }

  const REFUNDING := FAILING.(flights := multiset{RefundCall(0, "pi", 100)})

  lemma LoadsRefund()
    ensures Apply(FAILING.(flights := multiset{RefundLoad(0)}), REFUND_STEPS[2]) == REFUNDING
  {
    hide ApplyCancel, ApplyDeliver, ApplyCreate;
  }

  lemma CallThrows()
    ensures Apply(REFUNDING, REFUND_STEPS[3]) == FAILING
  {
    hide ApplyCancel, ApplyDeliver, ApplyCreate;
  }

  lemma Fails()
    ensures Run(OPENED, REFUND_STEPS) == FAILING
  {
    hide Apply;
    Pays();
    Cancels();
    CallFails();
    RunFour(OPENED, REFUND_STEPS);
  }

  lemma Finishes()
    ensures var w := Apply(FAILING, LATE_STEPS[0]);
      && |w.db.bookings| == 1 && 0 in w.db.payments && FailPayment(0) in w.flights
      && w.db.bookings[0].status == Cancelled
      && w.db.bookings[0].releasedAt.Some? && w.returned == multiset{0}
  {
  }

  lemma Overwrites()
    ensures var w := Run(FAILING, LATE_STEPS);
      && |w.db.bookings| == 1
      && w.db.bookings[0].status == CancellationFailed
      && w.db.bookings[0].releasedAt.Some? && w.returned == multiset{0}
  {
    hide Apply;
    Finishes();
    Overwrites2(Apply(FAILING, LATE_STEPS[0]));
    RunOn(FAILING, LATE_STEPS);
    assert LATE_STEPS[1..] == [Advance(FailPayment(0), Done), Advance(FailBooking(0), Done)];
  }

  lemma FailsPayment(w: World)
    requires |w.db.bookings| == 1 && 0 in w.db.payments && FailPayment(0) in w.flights
    ensures var w' := Apply(w, Advance(FailPayment(0), Done));
      w'.db.bookings == w.db.bookings && w'.returned == w.returned && FailBooking(0) in w'.flights
  {
  }

  lemma FailsBooking(w: World)
    requires |w.db.bookings| == 1 && FailBooking(0) in w.flights
    ensures var w' := Apply(w, Advance(FailBooking(0), Done));
      && w'.db.bookings == [w.db.bookings[0].(status := CancellationFailed)]
      && w'.returned == w.returned
  {
  }

  lemma Overwrites2(w: World)
    requires |w.db.bookings| == 1 && 0 in w.db.payments && FailPayment(0) in w.flights
    ensures var w' := Run(w, [Advance(FailPayment(0), Done), Advance(FailBooking(0), Done)]);
      && w'.db.bookings == [w.db.bookings[0].(status := CancellationFailed)]
      && w'.returned == w.returned
  {
    hide Apply;
    var steps := [Advance(FailPayment(0), Done), Advance(FailBooking(0), Done)];
    var w1 := Apply(w, steps[0]);
    FailsPayment(w);
    FailsBooking(w1);
    RunOn(w, steps);
    RunOn(w1, steps[1..]);
    assert steps[1..][1..] == [];
  }

  /** `cancelled` is not absorbing: this run reaches it and loses it, with the seats returned once. */
  lemma CancelledCanBeLost()
    ensures var steps := BOOKING_STEPS + CHECKOUT_STEPS + REFUND_STEPS;
      var w := Reached(CONFIG, 0, steps + LATE_STEPS[..1]);
      var w' := Reached(CONFIG, 0, steps + LATE_STEPS);
      && |w.db.bookings| == 1 && w.db.bookings[0].status == Cancelled
      && |w'.db.bookings| == 1 && w'.db.bookings[0].status == CancellationFailed
      && w'.returned == multiset{0}
  {
    hide Apply;
    var w0 := Initial(CONFIG, 0);
    Books();
    Opens();
    Fails();
    RunConcat(w0, BOOKING_STEPS, CHECKOUT_STEPS);
    RunConcat(w0, BOOKING_STEPS + CHECKOUT_STEPS, REFUND_STEPS);
    RunConcat(w0, BOOKING_STEPS + CHECKOUT_STEPS + REFUND_STEPS, LATE_STEPS);
    RunConcat(w0, BOOKING_STEPS + CHECKOUT_STEPS + REFUND_STEPS, LATE_STEPS[..1]);
    Finishes();
    Overwrites();
    RunOn(FAILING, LATE_STEPS[..1]);
    assert LATE_STEPS[..1][1..] == [];
  }
}
