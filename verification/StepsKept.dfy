/** Every step keeps the invariant and only moves the machine forward. */
module StepsKept {
  import opened Rows
  import opened CatalogTx
  import opened ReviewTx
  import opened Machine
  import opened Invariant
  import opened RowsKept
  import opened ReviewsKept
  import opened MovesKept

  // --- steps that leave bookings, payments and history alone ---

  ghost predicate SameBookings(db: Db, db': Db) {
    && db'.bookings == db.bookings && db'.payments == db.payments
    && db'.idempotency == db.idempotency && db'.events == db.events
  }

  ghost predicate Outside(w: World, w': World) {
    w' == w.(db := w'.db, now := w'.now) && w.now <= w'.now && SameBookings(w.db, w'.db)
  }

  lemma OutsideLater(w: World, w': World)
    requires Outside(w, w')
    ensures Later(w, w')
  {
  }

  lemma OutsideOps(w: World, w': World)
    requires Outside(w, w') && OpsOk(w)
    ensures OpsOk(w')
  {
    OutsideLater(w, w');
    FlightsCarry(w, w', multiset{}, multiset{});
  }

  lemma OutsideKeeps(w: World, w': World)
    requires Inv(w) && Outside(w, w') && RowsOk(w'.db) && w'.db.reviews == w.db.reviews
    requires w'.db.nextReview == w.db.nextReview && RatingsOk(w'.db.tours, w'.db.reviews)
    ensures Inv(w') && Later(w, w')
  {
    OutsideLater(w, w');
    OutsideOps(w, w');
    ReviewsCarry(w.db, w.now, w'.db, w'.now);
  }

  lemma StutterKeeps(w: World)
    requires Inv(w)
    ensures Inv(w) && Later(w, w)
  {
    OutsideLater(w, w);
  }

  lemma TickKeeps(w: World, elapsed: nat)
    requires Inv(w)
    ensures Inv(Apply(w, Tick(elapsed))) && Later(w, Apply(w, Tick(elapsed)))
  {
    OutsideKeeps(w, Apply(w, Tick(elapsed)));
  }

  // --- departures and tours ---

  lemma KeepTourFree<T>(w: World, tx: Tx<T>)
    requires Inv(w)
    requires tx.Commit? ==> RowsOk(tx.db) && tx.db == w.db.(departures := tx.db.departures)
    ensures Inv(Keep(w, tx)) && Later(w, Keep(w, tx))
  {
    OutsideKeeps(w, Keep(w, tx));
  }

  lemma CreateDepartureStep(w: World, t: nat, start: int, available: nat, active: bool, checkedAt: int)
    requires Inv(w)
    ensures var w' := Apply(w, CreateDeparture(t, start, available, active, checkedAt)); Inv(w') && Later(w, w')
  {
    hide RowsOk, OpsOk, ReviewStateOk, Later;
    var tx := CreateDepartureTx(w.db, checkedAt, t, start, available, active);
    if tx.Commit? {
      CreateDepartureKeeps(w.db, checkedAt, t, start, available, active);
    }
    KeepTourFree(w, tx);
    StutterKeeps(w);
  }

  lemma UpdateDepartureStep(w: World, t: nat, d: nat, patch: DeparturePatch, checkedAt: int)
    requires Inv(w)
    ensures var w' := Apply(w, UpdateDeparture(t, d, patch, checkedAt)); Inv(w') && Later(w, w')
  {
    hide RowsOk, OpsOk, ReviewStateOk, Later;
    var tx := UpdateDepartureTx(w.db, checkedAt, t, d, patch);
    if tx.Commit? {
      UpdateDepartureKeeps(w.db, checkedAt, t, d, patch);
    }
    KeepTourFree(w, tx);
    StutterKeeps(w);
  }

  lemma DeleteDepartureStep(w: World, t: nat, d: nat)
    requires Inv(w)
    ensures var w' := Apply(w, DeleteDeparture(t, d)); Inv(w') && Later(w, w')
  {
    hide RowsOk, OpsOk, ReviewStateOk, Later;
    var tx := DeleteDepartureTx(w.db, t, d);
    if tx.Commit? {
      DeleteDepartureKeeps(w.db, t, d);
    }
    KeepTourFree(w, tx);
  }

  lemma CreateTourStep(w: World, input: TourInput)
    requires Inv(w)
    ensures var w' := Apply(w, CreateTour(input)); Inv(w') && Later(w, w')
  {
    hide RowsOk, OpsOk, Later;
    var w' := Apply(w, CreateTour(input));
    if CreateTourTx(w.db, input).Commit? {
      CreateTourKeeps(w.db, input);
      NewTourUnrated(w.db, w.now);
    }
    OutsideKeeps(w, w');
  }

  lemma UpdateTourStep(w: World, t: nat, patch: TourPatch)
    requires Inv(w)
    ensures var w' := Apply(w, UpdateTour(t, patch)); Inv(w') && Later(w, w')
  {
    hide RowsOk, OpsOk, Later;
    if UpdateTourTx(w.db, t, patch).Commit? {
      UpdateTourKeeps(w.db, t, patch);
    }
    OutsideKeeps(w, Apply(w, UpdateTour(t, patch)));
  }

  lemma DeleteTourStep(w: World, t: nat, mediaRemoved: bool)
    requires Inv(w)
    ensures var w' := Apply(w, DeleteTour(t, mediaRemoved)); Inv(w') && Later(w, w')
  {
    hide RowsOk, OpsOk, Later;
    if DeleteTourTx(w.db, t, mediaRemoved).Commit? {
      DeleteTourKeeps(w.db, t, mediaRemoved);
    }
    OutsideKeeps(w, Apply(w, DeleteTour(t, mediaRemoved)));
  }

  // --- reviews ---

  lemma KeepReviews<T>(w: World, tx: Tx<T>)
    requires Inv(w)
    requires tx.Commit? ==>
               RowsOk(tx.db) && ReviewStateOk(tx.db, w.now) && SameBookings(w.db, tx.db)
    ensures Inv(Keep(w, tx)) && Later(w, Keep(w, tx))
  {
    OutsideLater(w, Keep(w, tx));
    OutsideOps(w, Keep(w, tx));
  }

  lemma ReviewStep(w: World, step: Step)
    requires Inv(w) && (step.CreateReview? || step.UpdateReview? || step.DeleteReview?)
    ensures Inv(Apply(w, step)) && Later(w, Apply(w, step))
  {
    hide RowsOk, OpsOk, ReviewStateOk, Later;
    match step {
      case CreateReview(user, t, rating) =>
        var tx := CreateReviewTx(w.db, w.now, user, t, rating);
        if tx.Commit? {
          CreateReviewKeeps(w.db, w.now, user, t, rating);
        }
        KeepReviews(w, tx);
      case UpdateReview(user, t, id, rating) =>
        var tx := UpdateReviewTx(w.db, user, t, id, rating);
        if tx.Commit? {
          UpdateReviewKeeps(w.db, w.now, user, t, id, rating);
        }
        KeepReviews(w, tx);
      case DeleteReview(user, t, id) =>
        var tx := DeleteReviewTx(w.db, user, t, id);
        if tx.Commit? {
          DeleteReviewKeeps(w.db, w.now, user, t, id);
        }
        KeepReviews(w, tx);
    }
  }
}
