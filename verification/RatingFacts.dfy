/** What a tour's rating says about the stored reviews: their number, and their mean rounded half-up. */
module RatingFacts {
  import opened Rows
  import opened Pricing
  import opened ReviewTx
  import opened Machine
  import opened Invariant
  import opened Safety
  import Analytics

  function ReviewsOf(reviews: seq<Review>, t: nat): set<nat> {
    set i: nat | i < |reviews| && reviews[i].tour == t
  }

  /** The stars a row gives the tour. */
  function Stars(reviews: seq<Review>, t: nat): nat -> nat {
    (i: nat) => if i < |reviews| && reviews[i].tour == t then reviews[i].rating else 0
  }

  lemma {:induction false} CountIsSize(reviews: seq<Review>, t: nat)
    ensures Count(reviews, t) == |ReviewsOf(reviews, t)|
  {
    if |reviews| > 0 {
      var last := |reviews| - 1;
      CountIsSize(reviews[..last], t);
      if reviews[last].tour == t {
        assert ReviewsOf(reviews, t) == ReviewsOf(reviews[..last], t) + {last};
      } else {
        assert ReviewsOf(reviews, t) == ReviewsOf(reviews[..last], t);
      }
    }
  }

  lemma {:induction false} SumIsTotal(reviews: seq<Review>, t: nat)
    ensures Sum(reviews, t) == Analytics.Total(|reviews|, Stars(reviews, t))
  {
    if |reviews| > 0 {
      var last := |reviews| - 1;
      SumIsTotal(reviews[..last], t);
      Analytics.TotalEqual(last, Stars(reviews[..last], t), Stars(reviews, t));
    }
  }

  /** The tour shows how many reviews name it and the mean of their stars, in hundredths, rounded half-up;
      without reviews it shows no mean.
    */
  ghost predicate ShowsTheMean(tour: Tour, reviews: seq<Review>, t: nat) {
    var n, stars := |ReviewsOf(reviews, t)|, Analytics.Total(|reviews|, Stars(reviews, t));
    && tour.ratingCount == n
    && (tour.ratingAverage.Some? <==> n > 0)
    && (n > 0 ==> -(n as int) < 2 * (n * tour.ratingAverage.value - 100 * stars) <= n)
  }

  lemma AverageIsMean(reviews: seq<Review>, t: nat)
    ensures var n, stars := |ReviewsOf(reviews, t)|, Analytics.Total(|reviews|, Stars(reviews, t));
      && (Average(reviews, t).Some? <==> n > 0)
      && (n > 0 ==> -(n as int) < 2 * (n * Average(reviews, t).value - 100 * stars) <= n)
  {
    CountIsSize(reviews, t);
    SumIsTotal(reviews, t);
    var n, stars := Count(reviews, t), Sum(reviews, t);
    if n > 0 {
      var mean := RoundHalfUp(100 * stars, n);
      assert Average(reviews, t) == Some(mean);
      hide *;
      HalfUpIsMean(n, stars, mean);
    }
  }

  lemma HalfUpIsMean(n: nat, stars: nat, mean: nat)
    requires 2 * n * mean <= 2 * (100 * stars) + n < 2 * n * (mean + 1)
    ensures -(n as int) < 2 * (n * mean - 100 * stars) <= n
  {
    assert 2 * n * (mean + 1) == 2 * (n * mean) + 2 * n;
    assert 2 * n * mean == 2 * (n * mean);
  }

  /** On every run each tour shows the mean of its stored reviews. */
  lemma RatingIsTheMean(config: Config, now: int, steps: seq<Step>, t: nat)
    requires t < |Reached(config, now, steps).db.tours|
    ensures var db := Reached(config, now, steps).db; ShowsTheMean(db.tours[t], db.reviews, t)
  {
    ReachedInv(config, now, steps);
    var db := Reached(config, now, steps).db;
    assert RatingsOk(db.tours, db.reviews);
    hide Reached, Average;
    CountIsSize(db.reviews, t);
    AverageIsMean(db.reviews, t);
  }
}
