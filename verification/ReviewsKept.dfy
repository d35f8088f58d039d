/** Reviews stay backed by confirmed past bookings, and ratings stay the aggregate of the rows. */
module ReviewsKept {
  import opened Rows
  import opened Seats
  import opened ReviewTx
  import opened Invariant
  import opened RowsKept

  /** "Confirmed and past" survives whatever keeps past confirmed bookings confirmed. */
  ghost predicate PastStands(db: Db, now: int, db': Db) {
    && |db.bookings| <= |db'.bookings|
    && forall b :: 0 <= b < |db.bookings| && db.bookings[b].status == Confirmed && db.bookings[b].start < now ==>
         && db'.bookings[b].user == db.bookings[b].user && db'.bookings[b].tour == db.bookings[b].tour
         && db'.bookings[b].start == db.bookings[b].start && db'.bookings[b].status == Confirmed
  }

  lemma QualifiedCarries(db: Db, now: int, db': Db, now': int, user: nat, t: nat)
    requires PastStands(db, now, db') && now <= now' && Qualified(db, now, user, t)
    ensures Qualified(db', now', user, t)
  {
    var b :| 0 <= b < |db.bookings| && Qualifies(db.bookings[b], now, user, t);
    assert Qualifies(db'.bookings[b], now', user, t);
  }

  lemma ReviewsCarry(db: Db, now: int, db': Db, now': int)
    requires ReviewsOk(db, now) && PastStands(db, now, db') && now <= now'
    requires db'.reviews == db.reviews && db'.nextReview == db.nextReview
    ensures ReviewsOk(db', now')
  {
    forall i | 0 <= i < |db'.reviews| ensures ReviewOk(db', now', db'.reviews[i]) {
      assert ReviewOk(db, now, db.reviews[i]);
      QualifiedCarries(db, now, db', now', db.reviews[i].user, db.reviews[i].tour);
    }
  }

  lemma ReviewedTourExists(db: Db, now: int, i: nat)
    requires RowsOk(db) && ReviewsOk(db, now) && i < |db.reviews|
    ensures db.reviews[i].tour < |db.tours|
  {
    assert ReviewOk(db, now, db.reviews[i]);
    var b :| 0 <= b < |db.bookings| && Qualifies(db.bookings[b], now, db.reviews[i].user, db.reviews[i].tour);
    assert SnapshotOk(db.departures, db.bookings[b]);
    assert SeatOk(db.tours, db.departures[db.bookings[b].departure], Held(db.bookings, db.bookings[b].departure));
  }

  lemma {:induction false} NoReviews(reviews: seq<Review>, t: nat)
    requires forall i :: 0 <= i < |reviews| ==> reviews[i].tour != t
    ensures Count(reviews, t) == 0 && Sum(reviews, t) == 0
  {
    if |reviews| > 0 {
      NoReviews(reviews[..|reviews| - 1], t);
    }
  }

  lemma NewTourUnrated(db: Db, now: int)
    requires RowsOk(db) && ReviewsOk(db, now)
    ensures Count(db.reviews, |db.tours|) == 0
  {
    forall i | 0 <= i < |db.reviews| ensures db.reviews[i].tour != |db.tours| {
      ReviewedTourExists(db, now, i);
    }
    NoReviews(db.reviews, |db.tours|);
  }

  /** Rewriting one tour's aggregate after its rows changed keeps every tour's aggregate right. */
  lemma RecomputeKeeps(db: Db, reviews: seq<Review>, t: nat)
    requires RatingsOk(db.tours, db.reviews) && t < |db.tours|
    requires forall t' :: 0 <= t' < |db.tours| && t' != t ==>
               Count(reviews, t') == Count(db.reviews, t') && Average(reviews, t') == Average(db.reviews, t')
    ensures var db' := Recompute(db.(reviews := reviews), t); RatingsOk(db'.tours, db'.reviews)
  {
  }

  lemma QualifiedAlso(db: Db, db': Db, now: int)
    requires db'.bookings == db.bookings
    ensures forall user, t {:trigger Qualified(db', now, user, t)} ::
              Qualified(db', now, user, t) <==> Qualified(db, now, user, t)
  {
  }

  lemma CreateReviewKeeps(db: Db, now: int, user: nat, t: nat, rating: nat)
    requires RowsOk(db) && ReviewStateOk(db, now) && CreateReviewTx(db, now, user, t, rating).Commit?
    ensures var db' := CreateReviewTx(db, now, user, t, rating).db; RowsOk(db') && ReviewStateOk(db', now)
  {
    var row := Review(db.nextReview, user, t, rating);
    var reviews := db.reviews + [row];
    RatingKeeps(db, t, Count(reviews, t), Average(reviews, t));
    assert reviews[..|db.reviews|] == db.reviews;
    RecomputeKeeps(db, reviews, t);
    CreatedReviewsOk(db, now, user, t, rating);
  }

  lemma CreatedReviewsOk(db: Db, now: int, user: nat, t: nat, rating: nat)
    requires ReviewsOk(db, now) && CreateReviewTx(db, now, user, t, rating).Commit?
    ensures ReviewsOk(CreateReviewTx(db, now, user, t, rating).db, now)
  {
    var db' := CreateReviewTx(db, now, user, t, rating).db;
    QualifiedAlso(db, db', now);
    assert ReviewOk(db', now, db'.reviews[|db.reviews|]);
  }

  lemma UpdateReviewKeeps(db: Db, now: int, user: nat, t: nat, id: nat, rating: Option<nat>)
    requires RowsOk(db) && ReviewStateOk(db, now) && UpdateReviewTx(db, user, t, id, rating).Commit?
    ensures var db' := UpdateReviewTx(db, user, t, id, rating).db; RowsOk(db') && ReviewStateOk(db', now)
  {
    var db' := UpdateReviewTx(db, user, t, id, rating).db;
    var i := Find(db.reviews, user, t, id).value;
    RatingKeeps(db, t, Count(db'.reviews, t), Average(db'.reviews, t));
    forall t' | 0 <= t' < |db.tours| && t' != t
      ensures Count(db'.reviews, t') == Count(db.reviews, t') && Average(db'.reviews, t') == Average(db.reviews, t')
    {
      OtherToursUntouched(db.reviews, i, db'.reviews[i], t');
    }
    RecomputeKeeps(db, db'.reviews, t);
    UpdatedReviewsOk(db, now, user, t, id, rating);
  }

  lemma UpdatedReviewsOk(db: Db, now: int, user: nat, t: nat, id: nat, rating: Option<nat>)
    requires ReviewsOk(db, now) && UpdateReviewTx(db, user, t, id, rating).Commit?
    ensures ReviewsOk(UpdateReviewTx(db, user, t, id, rating).db, now)
  {
    var db' := UpdateReviewTx(db, user, t, id, rating).db;
    var i := Find(db.reviews, user, t, id).value;
    QualifiedAlso(db, db', now);
    assert ReviewOk(db, now, db.reviews[i]);
  }

  lemma DeleteReviewKeeps(db: Db, now: int, user: nat, t: nat, id: nat)
    requires RowsOk(db) && ReviewStateOk(db, now) && DeleteReviewTx(db, user, t, id).Commit?
    ensures var db' := DeleteReviewTx(db, user, t, id).db; RowsOk(db') && ReviewStateOk(db', now)
  {
    var db' := DeleteReviewTx(db, user, t, id).db;
    var i := Find(db.reviews, user, t, id).value;
    RatingKeeps(db, t, Count(db'.reviews, t), Average(db'.reviews, t));
    forall t' | 0 <= t' < |db.tours| && t' != t
      ensures Count(db'.reviews, t') == Count(db.reviews, t') && Average(db'.reviews, t') == Average(db.reviews, t')
    {
      OtherToursKept(db.reviews, i, t');
    }
    RecomputeKeeps(db, db'.reviews, t);
    DeletedReviewsOk(db, now, user, t, id);
  }

  lemma DeletedReviewsOk(db: Db, now: int, user: nat, t: nat, id: nat)
    requires ReviewsOk(db, now) && DeleteReviewTx(db, user, t, id).Commit?
    ensures ReviewsOk(DeleteReviewTx(db, user, t, id).db, now)
  {
    var db' := DeleteReviewTx(db, user, t, id).db;
    var i := Find(db.reviews, user, t, id).value;
    QualifiedAlso(db, db', now);
    forall j | 0 <= j < |db'.reviews| ensures ReviewOk(db', now, db'.reviews[j]) {
      assert ReviewOk(db, now, db.reviews[if j < i then j else j + 1]);
    }
  }
}
