/** When the departures, tours and reviews services accept a call and which fields it writes, stated on the
    rows alone.
  */
module CatalogAnswers {
  import opened Rows
  import opened BookingTx
  import opened CatalogTx
  import opened ReviewTx

  // --- departures ---

  predicate TourLives(db: Db, t: nat) {
    t < |db.tours| && !db.tours[t].deleted
  }

  predicate DepartureLives(db: Db, t: nat, d: nat) {
    d < |db.departures| && db.departures[d].tour == t && !db.departures[d].deleted
  }

  /** No other departure of the tour, deleted ones included, starts then. */
  predicate SlotFree(db: Db, t: nat, start: int, except: nat) {
    forall d :: 0 <= d < |db.departures| && d != except && db.departures[d].tour == t ==>
      db.departures[d].start != start
  }

  /** A departure is created exactly when it lies ahead, fits its live tour and has its instant to itself. */
  ghost predicate CreateDepartureAnswer(db: Db, checkedAt: int, t: nat, start: int, available: nat, active: bool,
                                        r: Result<nat>, db': Db) {
    && (r.Ok? <==>
          && checkedAt < start && TourLives(db, t) && available <= db.tours[t].maximum
          && SlotFree(db, t, start, |db.departures|))
    && (r.Ok? ==>
          && r.value == |db.departures|
          && db' == db.(departures := db.departures + [Departure(t, start, available, 0, active, false)]))
    && (r.Err? ==>
          && db' == db
          && r.error == if start <= checkedAt then NotFuture
                        else if !TourLives(db, t) then NotFound
                        else if available > db.tours[t].maximum then CapacityExceeded else ScheduleConflict)
  }

  lemma CreateDepartureExactly(db: Db, checkedAt: int, t: nat, start: int, available: nat, active: bool)
    ensures match CreateDepartureTx(db, checkedAt, t, start, available, active)
      case Commit(db', d) => CreateDepartureAnswer(db, checkedAt, t, start, available, active, Ok(d), db')
      case Abort(error) => CreateDepartureAnswer(db, checkedAt, t, start, available, active, Err(error), db)
  {
  }

  /** What the patch gives, or what the row has. */
  function Patched<T>(patch: Option<T>, value: T): T {
    match patch
    case Some(given) => given
    case None => value
  }

  /** A reserved departure can be resized but neither moved nor deactivated; a changed one lies ahead, fits
      its tour and has its instant to itself. Each given field is written and nothing else.
    */
  ghost predicate UpdateDepartureAnswer(db: Db, checkedAt: int, t: nat, d: nat, patch: DeparturePatch,
                                        r: Result<()>, db': Db) {
    && (r.Ok? <==>
          && (patch.start.Some? ==> checkedAt < patch.start.value)
          && TourLives(db, t) && DepartureLives(db, t, d)
          && (db.departures[d].reserved > 0 ==> patch.start.None? && patch.active != Some(false))
          && Patched(patch.available, db.departures[d].available) + db.departures[d].reserved <= db.tours[t].maximum
          && (patch.start.Some? ==> SlotFree(db, t, patch.start.value, d)))
    && (r.Ok? ==>
          && d < |db.departures| == |db'.departures|
          && var row, row' := db.departures[d], db'.departures[d];
          && row'.start == Patched(patch.start, row.start)
          && row'.available == Patched(patch.available, row.available)
          && row'.active == Patched(patch.active, row.active)
          && row'.tour == row.tour && row'.reserved == row.reserved && !row'.deleted
          && db' == db.(departures := db.departures[d := row']))
    && (r.Err? ==> db' == db)
  }

  lemma UpdateDepartureExactly(db: Db, checkedAt: int, t: nat, d: nat, patch: DeparturePatch)
    ensures match UpdateDepartureTx(db, checkedAt, t, d, patch)
      case Commit(db', value) => UpdateDepartureAnswer(db, checkedAt, t, d, patch, Ok(value), db')
      case Abort(error) => UpdateDepartureAnswer(db, checkedAt, t, d, patch, Err(error), db)
  {
  }

  /** A departure is retired exactly while nobody holds a seat of it. */
  ghost predicate DeleteDepartureAnswer(db: Db, t: nat, d: nat, r: Result<()>, db': Db) {
    && (r.Ok? <==> TourLives(db, t) && DepartureLives(db, t, d) && db.departures[d].reserved <= 0)
    && (r.Ok? ==>
          && d < |db.departures|
          && db' == db.(departures := db.departures[d := db.departures[d].(deleted := true, active := false)]))
    && (r.Err? ==> db' == db)
  }

  lemma DeleteDepartureExactly(db: Db, t: nat, d: nat)
    ensures match DeleteDepartureTx(db, t, d)
      case Commit(db', value) => DeleteDepartureAnswer(db, t, d, Ok(value), db')
      case Abort(error) => DeleteDepartureAnswer(db, t, d, Err(error), db)
  {
  }

  // --- tours ---

  /** The group size still holds every live departure's seats. */
  predicate HoldsDepartures(db: Db, t: nat, maximum: nat) {
    forall d :: 0 <= d < |db.departures| && DepartureLives(db, t, d) ==>
      db.departures[d].available + db.departures[d].reserved <= maximum
  }

  /** A live tour takes a patch exactly when its values are in range and its size still holds its
      departures. Each given field is written; rating, deletion and every other tour stand.
    */
  ghost predicate UpdateTourAnswer(db: Db, t: nat, patch: TourPatch, r: Result<()>, db': Db) {
    && (r.Ok? <==>
          && (patch.maximum.Some? ==> 0 < patch.maximum.value)
          && (patch.discount.Some? ==> patch.discount.value < 10000)
          && TourLives(db, t)
          && (patch.maximum.Some? ==> HoldsDepartures(db, t, patch.maximum.value)))
    && (r.Ok? ==>
          && t < |db.tours| == |db'.tours|
          && var row, row' := db.tours[t], db'.tours[t];
          && row'.maximum == Patched(patch.maximum, row.maximum)
          && row'.priceCents == Patched(patch.priceCents, row.priceCents)
          && row'.discount == Patched(patch.discount, row.discount)
          && row'.active == Patched(patch.active, row.active)
          && row'.ratingCount == row.ratingCount && row'.ratingAverage == row.ratingAverage && !row'.deleted
          && db' == db.(tours := db.tours[t := row']))
    && (r.Err? ==> db' == db)
  }

  lemma UpdateTourExactly(db: Db, t: nat, patch: TourPatch)
    ensures match UpdateTourTx(db, t, patch)
      case Commit(db', value) => UpdateTourAnswer(db, t, patch, Ok(value), db')
      case Abort(error) => UpdateTourAnswer(db, t, patch, Err(error), db)
  {
    if patch.maximum.Some? {
      FloorHolds(db, t, patch.maximum.value);
      hide Represented, HoldsDepartures;
    }
  }

  lemma FloorHolds(db: Db, t: nat, maximum: nat)
    ensures Represented(db.departures, t) <= maximum <==> HoldsDepartures(db, t, maximum)
  {
    RepresentedAttained(db.departures, t);
    forall d | 0 <= d < |db.departures| && DepartureLives(db, t, d)
      ensures db.departures[d].available + db.departures[d].reserved <= Represented(db.departures, t)
    {
      RepresentedBounds(db.departures, t, d);
    }
    hide Represented;
    if Represented(db.departures, t) > maximum {
      var d :| 0 <= d < |db.departures| && db.departures[d].tour == t && !db.departures[d].deleted
               && db.departures[d].available + db.departures[d].reserved == Represented(db.departures, t);
      assert DepartureLives(db, t, d);
    }
  }

  /** The next booking of a patched tour buys at the patched price and percentage. */
  lemma NextBookingPaysPatched(db: Db, t: nat, patch: TourPatch, config: Config, now: int, key: ClientKey,
                               request: Request)
    requires UpdateTourTx(db, t, patch).Commit? && key !in db.idempotency
    requires request.departure < |db.departures| && db.departures[request.departure].tour == t
    ensures var db1 := UpdateTourTx(db, t, patch).db; var tx := CreateTx(db1, config, now, true, key, request);
      tx.Commit? ==>
        && tx.value == |db.bookings| && |tx.db.bookings| == |db.bookings| + 1
        && var row := tx.db.bookings[tx.value];
        && row.unitPriceCents == Patched(patch.priceCents, db.tours[t].priceCents)
        && row.discount == Patched(patch.discount, db.tours[t].discount)
        && row.quantity <= Patched(patch.maximum, db.tours[t].maximum)
        && (patch.active != Some(false))
  {
    hide Represented;
  }

  /** A new tour has the given values and no rating. */
  lemma CreateTourExactly(db: Db, input: TourInput)
    ensures var tx := CreateTourTx(db, input);
      && (tx.Commit? <==> input.maximum > 0 && input.discount < 10000)
      && (tx.Commit? ==>
            && tx.value == |db.tours|
            && tx.db == db.(tours := db.tours + [
                 Tour(input.priceCents, input.discount, input.maximum, input.active, false, 0, None)]))
  {
  }

  /** A tour is retired exactly while nobody holds a seat of its live departures and the store lets its images
      go; its live departures retire with it and nothing else changes.
    */
  ghost predicate DeleteTourAnswer(db: Db, t: nat, mediaRemoved: bool, r: Result<()>, db': Db) {
    && (r.Ok? <==>
          && TourLives(db, t) && mediaRemoved
          && forall d :: 0 <= d < |db.departures| && DepartureLives(db, t, d) ==> db.departures[d].reserved <= 0)
    && (r.Ok? ==>
          && t < |db.tours| && |db'.departures| == |db.departures|
          && (forall d :: 0 <= d < |db.departures| ==>
                db'.departures[d] == if DepartureLives(db, t, d)
                                     then db.departures[d].(deleted := true, active := false) else db.departures[d])
          && db' == db.(tours := db.tours[t := db.tours[t].(deleted := true, active := false)],
                        departures := db'.departures))
    && (r.Err? ==> db' == db)
  }

  lemma DeleteTourExactly(db: Db, t: nat, mediaRemoved: bool)
    ensures match DeleteTourTx(db, t, mediaRemoved)
      case Commit(db', value) => DeleteTourAnswer(db, t, mediaRemoved, Ok(value), db')
      case Abort(error) => DeleteTourAnswer(db, t, mediaRemoved, Err(error), db)
  {
  }

  // --- reviews ---

  /** A confirmed booking of the tour, by this customer, that has departed. */
  predicate Travelled(db: Db, now: int, user: nat, t: nat) {
    exists b :: 0 <= b < |db.bookings| && db.bookings[b].user == user && db.bookings[b].tour == t
                && db.bookings[b].status == Confirmed && db.bookings[b].start < now
  }

  predicate HasReviewed(db: Db, user: nat, t: nat) {
    exists i :: 0 <= i < |db.reviews| && db.reviews[i].user == user && db.reviews[i].tour == t
  }

  /** Only the tour's rating changes besides the reviews. */
  ghost predicate OnlyRating(db: Db, t: nat, db': Db) {
    && t < |db.tours| == |db'.tours|
    && db' == db.(reviews := db'.reviews, nextReview := db'.nextReview,
                  tours := db.tours[t := db.tours[t].(ratingCount := db'.tours[t].ratingCount,
                                                      ratingAverage := db'.tours[t].ratingAverage)])
  }

  /** A customer reviews a live tour exactly once, with one to five stars and after travelling; the row stores
      exactly what was submitted.
    */
  ghost predicate CreateReviewAnswer(db: Db, now: int, user: nat, t: nat, rating: nat, r: Result<nat>, db': Db) {
    && (r.Ok? <==>
          1 <= rating <= 5 && TourLives(db, t) && Travelled(db, now, user, t) && !HasReviewed(db, user, t))
    && (r.Ok? ==>
          && r.value == db.nextReview && db'.nextReview == db.nextReview + 1
          && db'.reviews == db.reviews + [Review(r.value, user, t, rating)]
          && OnlyRating(db, t, db'))
    && (r.Err? ==>
          && db' == db
          && r.error == if !(1 <= rating <= 5) then InvalidRequest
                        else if !TourLives(db, t) then NotFound
                        else if !Travelled(db, now, user, t) then NotQualified else AlreadyReviewed)
  }

  lemma CreateReviewExactly(db: Db, now: int, user: nat, t: nat, rating: nat)
    ensures match CreateReviewTx(db, now, user, t, rating)
      case Commit(db', id) => CreateReviewAnswer(db, now, user, t, rating, Ok(id), db')
      case Abort(error) => CreateReviewAnswer(db, now, user, t, rating, Err(error), db)
  {
    hide Count, Average;
    SameTravels(db, now, user, t);
    hide Qualified, Travelled;
  }

  lemma SameTravels(db: Db, now: int, user: nat, t: nat)
    ensures Qualified(db, now, user, t) <==> Travelled(db, now, user, t)
  {
    if Travelled(db, now, user, t) {
      var b :| 0 <= b < |db.bookings| && db.bookings[b].user == user && db.bookings[b].tour == t
               && db.bookings[b].status == Confirmed && db.bookings[b].start < now;
      assert Qualifies(db.bookings[b], now, user, t);
    }
  }

  /** The author's review of this tour with this identifier. */
  predicate IsReview(db: Db, user: nat, t: nat, id: nat, i: nat) {
    i < |db.reviews| && db.reviews[i].id == id && db.reviews[i].tour == t && db.reviews[i].user == user
  }

  /** The author's review takes the new rating, and no other review moves. */
  ghost predicate UpdateReviewAnswer(db: Db, user: nat, t: nat, id: nat, rating: Option<nat>, r: Result<()>, db': Db) {
    && (r.Ok? <==>
          && (rating.Some? ==> 1 <= rating.value <= 5) && TourLives(db, t)
          && exists i: nat :: IsReview(db, user, t, id, i))
    && (r.Ok? ==>
          && OnlyRating(db, t, db') && db'.nextReview == db.nextReview
          && exists i: nat :: IsReview(db, user, t, id, i)
               && db'.reviews == db.reviews[i := db.reviews[i].(rating := Patched(rating, db.reviews[i].rating))])
    && (r.Err? ==> db' == db)
  }

  lemma FindIs(db: Db, user: nat, t: nat, id: nat)
    ensures match Find(db.reviews, user, t, id)
      case Some(i) => IsReview(db, user, t, id, i)
      case None => forall i: nat :: !IsReview(db, user, t, id, i)
  {
  }

  lemma UpdateReviewExactly(db: Db, user: nat, t: nat, id: nat, rating: Option<nat>)
    ensures match UpdateReviewTx(db, user, t, id, rating)
      case Commit(db', value) => UpdateReviewAnswer(db, user, t, id, rating, Ok(value), db')
      case Abort(error) => UpdateReviewAnswer(db, user, t, id, rating, Err(error), db)
  {
    FindIs(db, user, t, id);
    hide Count, Average, Find;
    var found := Find(db.reviews, user, t, id);
    if found.Some? {
      assert IsReview(db, user, t, id, found.value);
      var row := db.reviews[found.value];
      assert row.(rating := row.rating) == row;
    }
  }

  /** The author's review goes, and every other stays in place. */
  ghost predicate DeleteReviewAnswer(db: Db, user: nat, t: nat, id: nat, r: Result<()>, db': Db) {
    && (r.Ok? <==> TourLives(db, t) && exists i: nat :: IsReview(db, user, t, id, i))
    && (r.Ok? ==>
          && OnlyRating(db, t, db') && db'.nextReview == db.nextReview
          && exists i: nat :: IsReview(db, user, t, id, i) && db'.reviews == db.reviews[..i] + db.reviews[i + 1..])
    && (r.Err? ==> db' == db)
  }

  lemma DeleteReviewExactly(db: Db, user: nat, t: nat, id: nat)
    ensures match DeleteReviewTx(db, user, t, id)
      case Commit(db', value) => DeleteReviewAnswer(db, user, t, id, Ok(value), db')
      case Abort(error) => DeleteReviewAnswer(db, user, t, id, Err(error), db)
  {
    FindIs(db, user, t, id);
    hide Count, Average, Find;
    var found := Find(db.reviews, user, t, id);
    if found.Some? {
      assert IsReview(db, user, t, id, found.value);
    }
  }
}
