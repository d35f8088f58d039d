/** Seat accounting: the seats a departure owes are those of its unreleased bookings. */
module Seats {
  import opened Rows

  function Weight(row: Booking, d: nat): nat {
    if row.departure == d && row.releasedAt.None? then row.quantity else 0
  }

  /** Seats of departure `d` held by bookings that have not given them back. */
  function Held(rows: seq<Booking>, d: nat): nat {
    if |rows| == 0 then 0 else Held(rows[..|rows| - 1], d) + Weight(rows[|rows| - 1], d)
  }

  lemma HeldAppend(rows: seq<Booking>, row: Booking, d: nat)
    ensures Held(rows + [row], d) == Held(rows, d) + Weight(row, d)
  {
    assert (rows + [row])[..|rows|] == rows;
  }

  lemma {:induction false} HeldUpdate(rows: seq<Booking>, b: nat, row: Booking, d: nat)
    requires b < |rows|
    ensures Held(rows[b := row], d) == Held(rows, d) - Weight(rows[b], d) + Weight(row, d)
  {
    var last := |rows| - 1;
    if b == last {
      assert rows[b := row][..last] == rows[..last];
    } else {
      assert rows[b := row][..last] == rows[..last][b := row];
      HeldUpdate(rows[..last], b, row, d);
    }
  }

  lemma {:induction false} HeldCovers(rows: seq<Booking>, b: nat)
    requires b < |rows|
    ensures Weight(rows[b], rows[b].departure) <= Held(rows, rows[b].departure)
  {
    var last := |rows| - 1;
    if b < last {
      HeldCovers(rows[..last], b);
    }
  }

  /** No departure is oversold: what is reserved is owed to an unreleased booking, what is available
      exists, and together they fit the tour.
    */
  ghost predicate SeatOk(tours: seq<Tour>, departure: Departure, held: nat) {
    && departure.tour < |tours|
    && departure.available >= 0
    && departure.reserved == held
    && (departure.deleted ==> departure.reserved == 0)
    && (!departure.deleted ==>
          && !tours[departure.tour].deleted
          && departure.available + departure.reserved <= tours[departure.tour].maximum)
  }

  ghost predicate SeatsOk(tours: seq<Tour>, departures: seq<Departure>, bookings: seq<Booking>) {
    forall d :: 0 <= d < |departures| ==> SeatOk(tours, departures[d], Held(bookings, d))
  }

  /** While a booking is unreleased its departure stands as the customer bought it. */
  ghost predicate SnapshotOk(departures: seq<Departure>, row: Booking) {
    && row.departure < |departures|
    && row.quantity > 0
    && departures[row.departure].tour == row.tour
    && (row.releasedAt.None? ==>
          && departures[row.departure].active
          && !departures[row.departure].deleted
          && departures[row.departure].start == row.start)
  }

  ghost predicate SnapshotsOk(departures: seq<Departure>, bookings: seq<Booking>) {
    forall b :: 0 <= b < |bookings| ==> SnapshotOk(departures, bookings[b])
  }

  /** An unreleased booking keeps its departure's reserved count positive. */
  lemma ReservedCovers(tours: seq<Tour>, departures: seq<Departure>, bookings: seq<Booking>, b: nat)
    requires SeatsOk(tours, departures, bookings) && SnapshotsOk(departures, bookings)
    requires b < |bookings| && bookings[b].releasedAt.None?
    ensures bookings[b].quantity <= departures[bookings[b].departure].reserved
  {
    HeldCovers(bookings, b);
  }

  lemma SeatsUnmoved(tours: seq<Tour>, departures: seq<Departure>, bookings: seq<Booking>, b: nat, row: Booking)
    requires SeatsOk(tours, departures, bookings) && b < |bookings|
    requires row.departure == bookings[b].departure && row.quantity == bookings[b].quantity
    requires row.releasedAt.None? <==> bookings[b].releasedAt.None?
    ensures SeatsOk(tours, departures, bookings[b := row])
  {
    forall d | 0 <= d < |departures| ensures SeatOk(tours, departures[d], Held(bookings[b := row], d)) {
      HeldUpdate(bookings, b, row, d);
    }
  }

  lemma SeatsReleased(tours: seq<Tour>, departures: seq<Departure>, bookings: seq<Booking>,
                      b: nat, row: Booking, departure: Departure)
    requires SeatsOk(tours, departures, bookings) && SnapshotsOk(departures, bookings)
    requires b < |bookings| && bookings[b].releasedAt.None? && row.releasedAt.Some?
    requires row.departure == bookings[b].departure
    requires var was := departures[row.departure];
      departure == was.(available := was.available + bookings[b].quantity,
                        reserved := was.reserved - bookings[b].quantity)
    ensures SeatsOk(tours, departures[row.departure := departure], bookings[b := row])
  {
    var departures' := departures[row.departure := departure];
    forall d | 0 <= d < |departures'|
      ensures SeatOk(tours, departures'[d], Held(bookings[b := row], d))
    {
      HeldUpdate(bookings, b, row, d);
    }
  }

  lemma SeatsBooked(tours: seq<Tour>, departures: seq<Departure>, bookings: seq<Booking>,
                    row: Booking, departure: Departure)
    requires SeatsOk(tours, departures, bookings)
    requires row.departure < |departures| && row.releasedAt.None?
    requires var was := departures[row.departure];
      && row.quantity <= was.available
      && !was.deleted
      && departure == was.(available := was.available - row.quantity,
                           reserved := was.reserved + row.quantity)
    ensures SeatsOk(tours, departures[row.departure := departure], bookings + [row])
  {
    var departures' := departures[row.departure := departure];
    forall d | 0 <= d < |departures'|
      ensures SeatOk(tours, departures'[d], Held(bookings + [row], d))
    {
      HeldAppend(bookings, row, d);
    }
  }
}
