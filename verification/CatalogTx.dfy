/** The transactions of the departures and tours services. */
module CatalogTx {
  import opened Rows

  datatype TourInput = TourInput(maximum: nat, priceCents: nat, discount: nat, active: bool)

  datatype TourPatch = TourPatch(
    maximum: Option<nat>, priceCents: Option<nat>, discount: Option<nat>, active: Option<bool>)

  datatype DeparturePatch = DeparturePatch(
    start: Option<int>, available: Option<nat>, active: Option<bool>)

  function OrElse<T>(o: Option<T>, value: T): T {
    if o.Some? then o.value else value
  }

  // --- departures ---

  /** The unique index on tour and instant, which also counts deleted departures. */
  predicate Scheduled(departures: seq<Departure>, t: nat, start: int, except: nat) {
    exists d :: 0 <= d < |departures| && d != except && departures[d].tour == t && departures[d].start == start
  }

  predicate LiveDeparture(db: Db, t: nat, d: nat) {
    d < |db.departures| && db.departures[d].tour == t && !db.departures[d].deleted
  }

  /** `checkedAt` is the clock reading of the future check, which precedes the transaction. */
  function CreateDepartureTx(db: Db, checkedAt: int, t: nat, start: int, available: nat, active: bool): Tx<nat> {
    if start <= checkedAt then Abort(NotFuture)
    else if !LiveTour(db, t) then Abort(NotFound)
    else if available > db.tours[t].maximum then Abort(CapacityExceeded)
    else if Scheduled(db.departures, t, start, |db.departures|) then Abort(ScheduleConflict)
    else
      Commit(db.(departures := db.departures + [Departure(t, start, available, 0, active, false)]),
             |db.departures|)
  }

  function UpdateDepartureTx(db: Db, checkedAt: int, t: nat, d: nat, patch: DeparturePatch): Tx<()> {
    if patch.start.Some? && patch.start.value <= checkedAt then Abort(NotFuture)
    else if !LiveTour(db, t) || !LiveDeparture(db, t, d) then Abort(NotFound)
    else
      var row := db.departures[d];
      var available := OrElse(patch.available, row.available);
      if row.reserved > 0 && (patch.start.Some? || patch.active == Some(false)) then Abort(DepartureReserved)
      else if available + row.reserved > db.tours[t].maximum then Abort(CapacityExceeded)
      else if patch.start.Some? && Scheduled(db.departures, t, patch.start.value, d) then Abort(ScheduleConflict)
      else
        var row' := row.(start := OrElse(patch.start, row.start),
                         available := available,
                         active := OrElse(patch.active, row.active));
        Commit(db.(departures := db.departures[d := row']), ())
  }

  function DeleteDepartureTx(db: Db, t: nat, d: nat): Tx<()> {
    if !LiveTour(db, t) || !LiveDeparture(db, t, d) then Abort(NotFound)
    else if db.departures[d].reserved > 0 then Abort(DepartureReserved)
    else Commit(db.(departures := db.departures[d := db.departures[d].(deleted := true, active := false)]), ())
  }

  // --- tours ---

  function CreateTourTx(db: Db, input: TourInput): Tx<nat> {
    if input.maximum == 0 || input.discount >= 10000 then Abort(InvalidRequest)
    else
      Commit(
        db.(tours := db.tours + [Tour(input.priceCents, input.discount, input.maximum, input.active, false, 0, None)]),
        |db.tours|)
  }

  function Max(a: int, b: int): int {
    if a >= b then a else b
  }

  /** Largest inventory among the tour's live departures, or 0 when it has none. */
  function Represented(departures: seq<Departure>, t: nat): int {
    if |departures| == 0 then 0
    else
      var last := departures[|departures| - 1];
      var rest := Represented(departures[..|departures| - 1], t);
      if last.tour == t && !last.deleted then Max(rest, last.available + last.reserved) else rest
  }

  lemma {:induction false} RepresentedBounds(departures: seq<Departure>, t: nat, d: nat)
    requires d < |departures| && departures[d].tour == t && !departures[d].deleted
    ensures departures[d].available + departures[d].reserved <= Represented(departures, t)
  {
    if d < |departures| - 1 {
      RepresentedBounds(departures[..|departures| - 1], t, d);
    }
  }

  /** The capacity floor is attained: it is 0 or the inventory of some live departure. */
  lemma {:induction false} RepresentedAttained(departures: seq<Departure>, t: nat)
    ensures Represented(departures, t) == 0
         || exists d :: 0 <= d < |departures| && departures[d].tour == t && !departures[d].deleted
                        && departures[d].available + departures[d].reserved == Represented(departures, t)
  {
    if |departures| > 0 {
      var rest := departures[..|departures| - 1];
      RepresentedAttained(rest, t);
      var last := departures[|departures| - 1];
      if !(last.tour == t && !last.deleted && last.available + last.reserved > Represented(rest, t))
         && Represented(departures, t) != 0
         && Represented(departures, t) == Represented(rest, t) {
        var d :| 0 <= d < |rest| && rest[d].tour == t && !rest[d].deleted
                 && rest[d].available + rest[d].reserved == Represented(rest, t);
        assert departures[d] == rest[d];
      }
    }
  }

  function UpdateTourTx(db: Db, t: nat, patch: TourPatch): Tx<()> {
    if patch.maximum == Some(0) || (patch.discount.Some? && patch.discount.value >= 10000) then Abort(InvalidRequest)
    else if !LiveTour(db, t) then Abort(NotFound)
    else if patch.maximum.Some? && patch.maximum.value < Represented(db.departures, t) then
      Abort(CapacityBelowInventory)
    else
      var row := db.tours[t];
      var row' := row.(maximum := OrElse(patch.maximum, row.maximum),
                       priceCents := OrElse(patch.priceCents, row.priceCents),
                       discount := OrElse(patch.discount, row.discount),
                       active := OrElse(patch.active, row.active));
      Commit(db.(tours := db.tours[t := row']), ())
  }

  predicate HasReserved(departures: seq<Departure>, t: nat) {
    exists d :: 0 <= d < |departures| && departures[d].tour == t && !departures[d].deleted
                && departures[d].reserved > 0
  }

  function Retired(departures: seq<Departure>, t: nat): (r: seq<Departure>)
    ensures |r| == |departures|
    ensures forall d :: 0 <= d < |r| ==>
              r[d] == if departures[d].tour == t && !departures[d].deleted
                      then departures[d].(deleted := true, active := false) else departures[d]
  {
    seq(|departures|, d requires 0 <= d < |departures| =>
      if departures[d].tour == t && !departures[d].deleted
      then departures[d].(deleted := true, active := false) else departures[d])
  }

  /** `mediaRemoved` tells whether the storage let every object of the tour be removed. */
  function DeleteTourTx(db: Db, t: nat, mediaRemoved: bool): Tx<()> {
    if !LiveTour(db, t) then Abort(NotFound)
    else if HasReserved(db.departures, t) then Abort(TourReserved)
    else if !mediaRemoved then Abort(MediaCleanupFailed)
    else
      Commit(db.(tours := db.tours[t := db.tours[t].(deleted := true, active := false)],
                 departures := Retired(db.departures, t)), ())
  }
}
