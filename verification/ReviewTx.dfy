/** The transactions of the reviews service and the rating aggregate they keep on the tour. */
module ReviewTx {
  import opened Rows
  import opened Pricing

  // --- aggregate ---

  function Count(reviews: seq<Review>, t: nat): nat {
    if |reviews| == 0 then 0
    else Count(reviews[..|reviews| - 1], t) + if reviews[|reviews| - 1].tour == t then 1 else 0
  }

  function Sum(reviews: seq<Review>, t: nat): nat {
    if |reviews| == 0 then 0
    else
      var last := reviews[|reviews| - 1];
      Sum(reviews[..|reviews| - 1], t) + if last.tour == t then last.rating else 0
  }

  /** The average in hundredths, rounded half-up to two decimals; null without reviews. */
  function Average(reviews: seq<Review>, t: nat): Option<nat> {
    if Count(reviews, t) == 0 then None
    else Some(RoundHalfUp(100 * Sum(reviews, t), Count(reviews, t)))
  }

  predicate Rated(reviews: seq<Review>) {
    forall i :: 0 <= i < |reviews| ==> 1 <= reviews[i].rating <= 5
  }

  lemma {:induction false} SumBounds(reviews: seq<Review>, t: nat)
    requires Rated(reviews)
    ensures Count(reviews, t) <= Sum(reviews, t) <= 5 * Count(reviews, t)
  {
    if |reviews| > 0 {
      SumBounds(reviews[..|reviews| - 1], t);
    }
  }

  /** A published average lies between 1.00 and 5.00. */
  lemma AverageBounds(reviews: seq<Review>, t: nat)
    requires Rated(reviews)
    ensures Average(reviews, t).Some? ==> 100 <= Average(reviews, t).value <= 500
  {
    SumBounds(reviews, t);
    var n := Count(reviews, t);
    if n > 0 {
      var r := Average(reviews, t).value;
      if r < 100 {
        MulMonotone(r + 1, 100, 2 * n);
      }
      if r > 500 {
        MulMonotone(501, r, 2 * n);
      }
    }
  }

  lemma {:induction false} OtherToursUntouched(reviews: seq<Review>, i: nat, row: Review, t: nat)
    requires i < |reviews| && row.tour == reviews[i].tour && t != row.tour
    ensures Count(reviews[i := row], t) == Count(reviews, t)
    ensures Sum(reviews[i := row], t) == Sum(reviews, t)
  {
    var last := |reviews| - 1;
    if i == last {
      assert reviews[i := row][..last] == reviews[..last];
    } else {
      assert reviews[i := row][..last] == reviews[..last][i := row];
      OtherToursUntouched(reviews[..last], i, row, t);
    }
  }

  function Without(reviews: seq<Review>, i: nat): (r: seq<Review>)
    requires i < |reviews|
    ensures |r| == |reviews| - 1
    ensures forall j :: 0 <= j < |r| ==> r[j] == if j < i then reviews[j] else reviews[j + 1]
  {
    reviews[..i] + reviews[i + 1..]
  }

  lemma {:induction false} OtherToursKept(reviews: seq<Review>, i: nat, t: nat)
    requires i < |reviews| && t != reviews[i].tour
    ensures Count(Without(reviews, i), t) == Count(reviews, t)
    ensures Sum(Without(reviews, i), t) == Sum(reviews, t)
  {
    var last := |reviews| - 1;
    if i == last {
      assert Without(reviews, i) == reviews[..last];
    } else {
      assert Without(reviews, i)[..last - 1] == Without(reviews[..last], i);
      OtherToursKept(reviews[..last], i, t);
    }
  }

  // --- transactions ---

  /** A confirmed booking of the tour whose snapshotted departure is past. */
  predicate Qualifies(row: Booking, now: int, user: nat, t: nat) {
    row.user == user && row.tour == t && row.status == Confirmed && row.start < now
  }

  predicate Qualified(db: Db, now: int, user: nat, t: nat) {
    exists b :: 0 <= b < |db.bookings| && Qualifies(db.bookings[b], now, user, t)
  }

  predicate Reviewed(reviews: seq<Review>, user: nat, t: nat) {
    exists i :: 0 <= i < |reviews| && reviews[i].user == user && reviews[i].tour == t
  }

  /** Writes the count and average of the stored rows on the tour. */
  function Recompute(db: Db, t: nat): Db
    requires t < |db.tours|
  {
    db.(tours := db.tours[t := db.tours[t].(ratingCount := Count(db.reviews, t),
                                            ratingAverage := Average(db.reviews, t))])
  }

  /** The row with this identifier, tour and author. */
  predicate Owns(row: Review, user: nat, t: nat, id: nat) {
    row.id == id && row.tour == t && row.user == user
  }

  function Find(reviews: seq<Review>, user: nat, t: nat, id: nat): (r: Option<nat>)
    ensures r.Some? ==> r.value < |reviews| && Owns(reviews[r.value], user, t, id)
    ensures r.None? ==> forall i :: 0 <= i < |reviews| ==> !Owns(reviews[i], user, t, id)
  {
    if |reviews| == 0 then None
    else if Owns(reviews[|reviews| - 1], user, t, id) then Some(|reviews| - 1)
    else Find(reviews[..|reviews| - 1], user, t, id)
  }

  function CreateReviewTx(db: Db, now: int, user: nat, t: nat, rating: nat): Tx<nat> {
    if !(1 <= rating <= 5) then Abort(InvalidRequest)
    else if !LiveTour(db, t) then Abort(NotFound)
    else if !Qualified(db, now, user, t) then Abort(NotQualified)
    else if Reviewed(db.reviews, user, t) then Abort(AlreadyReviewed)
    else
      var id := db.nextReview;
      var db' := db.(reviews := db.reviews + [Review(id, user, t, rating)], nextReview := id + 1);
      Commit(Recompute(db', t), id)
  }

  function UpdateReviewTx(db: Db, user: nat, t: nat, id: nat, rating: Option<nat>): Tx<()> {
    if rating.Some? && !(1 <= rating.value <= 5) then Abort(InvalidRequest)
    else if !LiveTour(db, t) then Abort(NotFound)
    else
      match Find(db.reviews, user, t, id)
      case None => Abort(NotFound)
      case Some(i) =>
        var row := db.reviews[i];
        var row' := if rating.Some? then row.(rating := rating.value) else row;
        Commit(Recompute(db.(reviews := db.reviews[i := row']), t), ())
  }

  function DeleteReviewTx(db: Db, user: nat, t: nat, id: nat): Tx<()> {
    if !LiveTour(db, t) then Abort(NotFound)
    else
      match Find(db.reviews, user, t, id)
      case None => Abort(NotFound)
      case Some(i) => Commit(Recompute(db.(reviews := Without(db.reviews, i)), t), ())
  }
}
