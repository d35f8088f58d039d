/** The departures, tours and reviews services writing their rows, against the transactions. */
module CatalogServices {
  import opened Rows
  import opened Database
  import Pricing
  import opened CatalogTx
  import opened ReviewTx
  import opened CatalogAnswers
  import opened Promises

  class Departures {
    const tables: Tables

    constructor (tables: Tables)
      ensures this.tables == tables
    {
      this.tables := tables;
    }

    method Create(checkedAt: int, t: nat, start: int, available: nat, active: bool) returns (r: Result<nat>)
      modifies tables
      ensures Ran(CreateDepartureTx(old(tables.Rows()), checkedAt, t, start, available, active),
                  old(tables.Rows()), tables.Rows(), r)
      ensures CatalogCallKeeps(old(tables.Rows()), tables.Rows())
      ensures CreateDepartureAnswer(old(tables.Rows()), checkedAt, t, start, available, active, r, tables.Rows())
    {
      CreateDepartureExactly(tables.Rows(), checkedAt, t, start, available, active);
      CreateDepartureKeepsAll(tables.Rows(), checkedAt, t, start, available, active);
      CatalogKeepsSame(tables.Rows());
      hide CreateDepartureAnswer, CatalogCallKeeps;
      if start <= checkedAt {
        return Err(NotFuture);
      }
      if !LiveTour(tables.Rows(), t) {
        return Err(NotFound);
      }
      if available > tables.tours[t].maximum {
        return Err(CapacityExceeded);
      }
      var d := |tables.departures|;
      if Scheduled(tables.departures, t, start, d) {
        return Err(ScheduleConflict);
      }
      tables.departures := tables.departures + [Departure(t, start, available, 0, active, false)];
      return Ok(d);
    }

    method Update(checkedAt: int, t: nat, d: nat, patch: DeparturePatch) returns (r: Result<()>)
      modifies tables
      ensures Ran(UpdateDepartureTx(old(tables.Rows()), checkedAt, t, d, patch),
                  old(tables.Rows()), tables.Rows(), r)
      ensures CatalogCallKeeps(old(tables.Rows()), tables.Rows())
      ensures UpdateDepartureAnswer(old(tables.Rows()), checkedAt, t, d, patch, r, tables.Rows())
    {
      UpdateDepartureExactly(tables.Rows(), checkedAt, t, d, patch);
      UpdateDepartureKeepsAll(tables.Rows(), checkedAt, t, d, patch);
      CatalogKeepsSame(tables.Rows());
      hide UpdateDepartureAnswer, CatalogCallKeeps;
      if patch.start.Some? && patch.start.value <= checkedAt {
        return Err(NotFuture);
      }
      if !LiveTour(tables.Rows(), t) || !LiveDeparture(tables.Rows(), t, d) {
        return Err(NotFound);
      }
      var row := tables.departures[d];
      if row.reserved > 0 && (patch.start.Some? || patch.active == Some(false)) {
        return Err(DepartureReserved);
      }
      var available := OrElse(patch.available, row.available);
      if available + row.reserved > tables.tours[t].maximum {
        return Err(CapacityExceeded);
      }
      if patch.start.Some? {
        if Scheduled(tables.departures, t, patch.start.value, d) {
          return Err(ScheduleConflict);
        }
        row := row.(start := patch.start.value);
      }
      if patch.available.Some? {
        row := row.(available := patch.available.value);
      }
      if patch.active.Some? {
        row := row.(active := patch.active.value);
      }
      tables.departures := tables.departures[d := row];
      return Ok(());
    }

    method Delete(t: nat, d: nat) returns (r: Result<()>)
      modifies tables
      ensures Ran(DeleteDepartureTx(old(tables.Rows()), t, d), old(tables.Rows()), tables.Rows(), r)
      ensures CatalogCallKeeps(old(tables.Rows()), tables.Rows())
      ensures DeleteDepartureAnswer(old(tables.Rows()), t, d, r, tables.Rows())
    {
      DeleteDepartureExactly(tables.Rows(), t, d);
      DeleteDepartureKeepsAll(tables.Rows(), t, d);
      CatalogKeepsSame(tables.Rows());
      hide DeleteDepartureAnswer, CatalogCallKeeps;
      if !LiveTour(tables.Rows(), t) || !LiveDeparture(tables.Rows(), t, d) {
        return Err(NotFound);
      }
      if tables.departures[d].reserved > 0 {
        return Err(DepartureReserved);
      }
      tables.departures := tables.departures[d := tables.departures[d].(deleted := true, active := false)];
      return Ok(());
    }
  }

  class Tours {
    const tables: Tables

    constructor (tables: Tables)
      ensures this.tables == tables
    {
      this.tables := tables;
    }

    method Update(t: nat, patch: TourPatch) returns (r: Result<()>)
      modifies tables
      ensures Ran(UpdateTourTx(old(tables.Rows()), t, patch), old(tables.Rows()), tables.Rows(), r)
      ensures CatalogCallKeeps(old(tables.Rows()), tables.Rows())
      ensures UpdateTourAnswer(old(tables.Rows()), t, patch, r, tables.Rows())
    {
      UpdateTourExactly(tables.Rows(), t, patch);
      UpdateTourKeepsAll(tables.Rows(), t, patch);
      CatalogKeepsSame(tables.Rows());
      hide UpdateTourAnswer, CatalogCallKeeps;
      if patch.maximum == Some(0) || (patch.discount.Some? && patch.discount.value >= 10000) {
        return Err(InvalidRequest);
      }
      if !LiveTour(tables.Rows(), t) {
        return Err(NotFound);
      }
      if patch.maximum.Some? {
        var represented := 0;
        for d := 0 to |tables.departures|
          invariant represented == Represented(tables.departures[..d], t)
        {
          assert tables.departures[..d + 1][..d] == tables.departures[..d];
          var departure := tables.departures[d];
          if departure.tour == t && !departure.deleted {
            represented := Max(represented, departure.available + departure.reserved);
          }
        }
        assert tables.departures[..|tables.departures|] == tables.departures;
        if patch.maximum.value < represented {
          return Err(CapacityBelowInventory);
        }
      }
      var row := tables.tours[t];
      if patch.maximum.Some? {
        row := row.(maximum := patch.maximum.value);
      }
      if patch.priceCents.Some? {
        row := row.(priceCents := patch.priceCents.value);
      }
      if patch.discount.Some? {
        row := row.(discount := patch.discount.value);
      }
      if patch.active.Some? {
        row := row.(active := patch.active.value);
      }
      tables.tours := tables.tours[t := row];
      return Ok(());
    }

    /** Retires the tour, then its live departures; `mediaRemoved` is the storage's verdict. */
    method Delete(t: nat, mediaRemoved: bool) returns (r: Result<()>)
      modifies tables
      ensures Ran(DeleteTourTx(old(tables.Rows()), t, mediaRemoved), old(tables.Rows()), tables.Rows(), r)
      ensures CatalogCallKeeps(old(tables.Rows()), tables.Rows())
      ensures DeleteTourAnswer(old(tables.Rows()), t, mediaRemoved, r, tables.Rows())
    {
      DeleteTourExactly(tables.Rows(), t, mediaRemoved);
      DeleteTourKeepsAll(tables.Rows(), t, mediaRemoved);
      CatalogKeepsSame(tables.Rows());
      hide DeleteTourAnswer, CatalogCallKeeps;
      if !LiveTour(tables.Rows(), t) {
        return Err(NotFound);
      }
      if HasReserved(tables.departures, t) {
        return Err(TourReserved);
      }
      if !mediaRemoved {
        return Err(MediaCleanupFailed);
      }
      tables.tours := tables.tours[t := tables.tours[t].(deleted := true, active := false)];
      ghost var was, retired := tables.departures, Retired(tables.departures, t);
      for d := 0 to |tables.departures|
        invariant |tables.departures| == |was|
        invariant tables.Rows() == old(tables.Rows()).(tours := tables.tours, departures := tables.departures)
        invariant tables.tours == old(tables.tours)[t := old(tables.tours)[t].(deleted := true, active := false)]
        invariant forall k :: 0 <= k < |was| ==> tables.departures[k] == if k < d then retired[k] else was[k]
      {
        var row := tables.departures[d];
        if row.tour == t && !row.deleted {
          tables.departures := tables.departures[d := row.(deleted := true, active := false)];
        }
      }
      assert tables.departures == retired;
      return Ok(());
    }
  }

  class Reviews {
    const tables: Tables

    constructor (tables: Tables)
      ensures this.tables == tables
    {
      this.tables := tables;
    }

    method Create(now: int, user: nat, t: nat, rating: nat) returns (r: Result<nat>)
      modifies tables
      ensures Ran(CreateReviewTx(old(tables.Rows()), now, user, t, rating),
                  old(tables.Rows()), tables.Rows(), r)
      ensures CreateReviewAnswer(old(tables.Rows()), now, user, t, rating, r, tables.Rows())
    {
      CreateReviewExactly(tables.Rows(), now, user, t, rating);
      hide CreateReviewAnswer;
      if !(1 <= rating <= 5) {
        return Err(InvalidRequest);
      }
      if !LiveTour(tables.Rows(), t) {
        return Err(NotFound);
      }
      if !Qualified(tables.Rows(), now, user, t) {
        return Err(NotQualified);
      }
      if Reviewed(tables.reviews, user, t) {
        return Err(AlreadyReviewed);
      }
      var id := tables.nextReview;
      tables.reviews := tables.reviews + [Review(id, user, t, rating)];
      tables.nextReview := id + 1;
      Recompute(t);
      return Ok(id);
    }

    method Update(user: nat, t: nat, id: nat, rating: Option<nat>) returns (r: Result<()>)
      modifies tables
      ensures Ran(UpdateReviewTx(old(tables.Rows()), user, t, id, rating),
                  old(tables.Rows()), tables.Rows(), r)
      ensures UpdateReviewAnswer(old(tables.Rows()), user, t, id, rating, r, tables.Rows())
    {
      UpdateReviewExactly(tables.Rows(), user, t, id, rating);
      hide UpdateReviewAnswer;
      if rating.Some? && !(1 <= rating.value <= 5) {
        return Err(InvalidRequest);
      }
      if !LiveTour(tables.Rows(), t) {
        return Err(NotFound);
      }
      var found := Find(tables.reviews, user, t, id);
      if found.None? {
        return Err(NotFound);
      }
      if rating.Some? {
        tables.reviews := tables.reviews[found.value := tables.reviews[found.value].(rating := rating.value)];
      }
      assert tables.reviews == old(tables.reviews)[found.value := tables.reviews[found.value]];
      Recompute(t);
      return Ok(());
    }

    method Delete(user: nat, t: nat, id: nat) returns (r: Result<()>)
      modifies tables
      ensures Ran(DeleteReviewTx(old(tables.Rows()), user, t, id), old(tables.Rows()), tables.Rows(), r)
      ensures DeleteReviewAnswer(old(tables.Rows()), user, t, id, r, tables.Rows())
    {
      DeleteReviewExactly(tables.Rows(), user, t, id);
      hide DeleteReviewAnswer;
      if !LiveTour(tables.Rows(), t) {
        return Err(NotFound);
      }
      var found := Find(tables.reviews, user, t, id);
      if found.None? {
        return Err(NotFound);
      }
      tables.reviews := Without(tables.reviews, found.value);
      Recompute(t);
      return Ok(());
    }

    /** Counts and sums the tour's rows and writes the aggregate on the tour. */
    method Recompute(t: nat)
      requires t < |tables.tours|
      modifies tables
      ensures tables.Rows() == ReviewTx.Recompute(old(tables.Rows()), t)
    {
      var count, sum := 0, 0;
      for i := 0 to |tables.reviews|
        invariant tables.Rows() == old(tables.Rows())
        invariant count == Count(tables.reviews[..i], t) && sum == Sum(tables.reviews[..i], t)
      {
        assert tables.reviews[..i + 1][..i] == tables.reviews[..i];
        if tables.reviews[i].tour == t {
          count := count + 1;
          sum := sum + tables.reviews[i].rating;
        }
      }
      assert tables.reviews[..|tables.reviews|] == tables.reviews;
      var average := if count == 0 then None else Some(Pricing.RoundHalfUp(100 * sum, count));
      tables.tours := tables.tours[t := tables.tours[t].(ratingCount := count, ratingAverage := average)];
    }
  }
}
