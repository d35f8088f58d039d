/** The tables as mutable state, and what it means for a method to run a transaction on them. */
module Database {
  import opened Rows

  class Tables {
    var tours: seq<Tour>
    var departures: seq<Departure>
    var bookings: seq<Booking>
    var payments: map<nat, Payment>
    var idempotency: map<ClientKey, Replay>
    var events: set<string>
    var reviews: seq<Review>
    var nextReview: nat

    function Rows(): Db
      reads this
    {
      Db(tours, departures, bookings, payments, idempotency, events, reviews, nextReview)
    }

    constructor ()
      ensures Rows() == EMPTY
    {
      tours, departures, bookings := [], [], [];
      payments, idempotency, events := map[], map[], {};
      reviews, nextReview := [], 0;
    }

    /** Puts the tables back to what they were when the transaction began. */
    method Rollback(before: Db)
      modifies this
      ensures Rows() == before
    {
      tours, departures, bookings := before.tours, before.departures, before.bookings;
      payments, idempotency, events := before.payments, before.idempotency, before.events;
      reviews, nextReview := before.reviews, before.nextReview;
    }
  }

  /** The method did what the transaction does: its rows and answer, or an error and no change. */
  ghost predicate Ran<T(!new)>(tx: Tx<T>, before: Db, after: Db, r: Result<T>) {
    match tx
    case Commit(db, value) => after == db && r == Ok(value)
    case Abort(error) => after == before && r == Err(error)
  }
}
