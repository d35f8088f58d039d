/** How the reports agree with the rows and with each other on every run. */
module AnalyticsFacts {
  import opened Rows
  import opened Seats
  import opened Invariant
  import opened Machine
  import opened Safety
  import opened Analytics

  // --- what the booking invariant says about the joined rows ---

  /** A confirmed booking's departure and tour stand as the booking says. */
  lemma ConfirmedStands(db: Db, b: nat)
    requires RowsOk(db) && b < |db.bookings| && db.bookings[b].status == Confirmed
    ensures var row := db.bookings[b];
      && row.releasedAt.None?
      && row.departure < |db.departures| && row.tour < |db.tours|
      && db.departures[row.departure].tour == row.tour
      && db.departures[row.departure].active && !db.departures[row.departure].deleted
      && db.departures[row.departure].start == row.start
      && !db.tours[row.tour].deleted
  {
    assert PhaseOk(db.bookings[b]) && SnapshotOk(db.departures, db.bookings[b]);
    var d := db.bookings[b].departure;
    assert SeatOk(db.tours, db.departures[d], Held(db.bookings, d));
  }

  lemma RowsArePlaced(db: Db)
    requires RowsOk(db)
    ensures BookingsPlaced(db)
    ensures forall b :: 0 <= b < |db.bookings| ==> db.bookings[b].tour < |db.tours|
  {
    forall b | 0 <= b < |db.bookings|
      ensures db.bookings[b].departure < |db.departures| && db.bookings[b].tour < |db.tours|
    {
      assert SnapshotOk(db.departures, db.bookings[b]);
      var d := db.bookings[b].departure;
      assert SeatOk(db.tours, db.departures[d], Held(db.bookings, d));
    }
  }

  // --- travelers, reserved spots, capacity ---

  lemma TravelersWeigh(db: Db, d: nat, b: nat)
    requires RowsOk(db) && b < |db.bookings|
    ensures Share(db, b, BookedOn(db, b, d), Travelers) <= Weight(db.bookings[b], d)
  {
    if db.bookings[b].status == Confirmed {
      ConfirmedStands(db, b);
    }
  }

  lemma {:induction false} TravelersHeld(db: Db, d: nat, k: nat)
    requires RowsOk(db) && k <= |db.bookings|
    ensures Total(k, b => Share(db, b, BookedOn(db, b, d), Travelers)) <= Held(db.bookings[..k], d)
  {
    hide RowsOk, Share, Weight;
    if k > 0 {
      TravelersHeld(db, d, k - 1);
      assert db.bookings[..k][..k - 1] == db.bookings[..k - 1];
      TravelersWeigh(db, d, k - 1);
    }
  }

  lemma TravelersFit(db: Db, d: nat)
    requires RowsOk(db) && d < |db.departures|
    ensures DepartureTotal(db, d, Travelers) <= ReservedSpots(db, d) <= Spots(db, d)
  {
    TravelersHeld(db, d, |db.bookings|);
    assert db.bookings[..|db.bookings|] == db.bookings;
    assert SeatOk(db.tours, db.departures[d], Held(db.bookings, d));
  }

  /** Month by month, travelers fit the reserved spots and those fit the capacity. */
  lemma MonthFits(db: Db, year: Year, month: nat)
    requires RowsOk(db)
    ensures MonthRowOf(db, year, month).travelers <= MonthRowOf(db, year, month).reservedSpots
    ensures MonthRowOf(db, year, month).reservedSpots <= MonthRowOf(db, year, month).capacity
  {
    hide RowsOk;
    var n := |db.departures|;
    var travelers := PlannedBookings(db, year, month, Travelers);
    var reserved, spots := PlannedReserved(db, year, month), PlannedSpots(db, year, month);
    forall d | 0 <= d < n ensures travelers(d) <= reserved(d) && reserved(d) <= spots(d) {
      TravelersFit(db, d);
    }
    TotalAtMost(n, travelers, reserved);
    TotalAtMost(n, reserved, spots);
  }

  // --- the year ---

  predicate BookedInYear(db: Db, b: nat, year: Year) {
    b < |db.bookings| && Planned(db, db.bookings[b].departure, year.from, year.to)
  }

  /** The calendar puts every instant of the year into one of its twelve months. */
  ghost predicate CalendarOk(year: Year) {
    forall at :: Within(at, year.from, year.to) ==> 1 <= year.monthOf(at) <= 12
  }

  lemma {:induction false} TotalCovers(n: nat, f: nat -> nat, k: nat)
    requires k < n
    ensures f(k) <= Total(n, f)
  {
    if k < n - 1 {
      TotalCovers(n - 1, f, k);
    }
  }

  /** A month the plan leaves out has nothing to report. */
  lemma EmptyMonth(db: Db, year: Year, month: nat, measure: Measure)
    requires MonthRowOf(db, year, month).departureCount == 0
    ensures MonthTotal(db, year, month, measure) == 0
  {
    var n := |db.departures|;
    forall d | 0 <= d < n ensures !PlannedIn(db, d, year, month) {
      TotalCovers(n, PlannedCount(db, year, month), d);
    }
    TotalZero(n, PlannedBookings(db, year, month, measure));
  }

  function MonthTotals(db: Db, year: Year, measure: Measure): nat -> nat {
    i => MonthTotal(db, year, i + 1, measure)
  }

  lemma RowReports(db: Db, year: Year, month: nat, measure: Measure)
    ensures RowAmount(MonthRowOf(db, year, month), measure) == MonthTotal(db, year, month, measure)
  {
  }

  lemma PlanAppends(rows: seq<MonthRow>, row: MonthRow, measure: Measure)
    ensures PlanTotal(rows + [row], measure) == PlanTotal(rows, measure) + RowAmount(row, measure)
  {
    assert (rows + [row])[..|rows|] == rows;
  }

  lemma PlanAdds(db: Db, year: Year, measure: Measure, k: nat)
    requires k > 0
    ensures PlanTotal(MonthsUpTo(db, year, k), measure)
         == PlanTotal(MonthsUpTo(db, year, k - 1), measure) + MonthTotal(db, year, k, measure)
  {
    hide MonthTotal, MonthRowOf, RowAmount, PlanTotal;
    RowReports(db, year, k, measure);
    PlanAppends(MonthsUpTo(db, year, k - 1), MonthRowOf(db, year, k), measure);
    if MonthRowOf(db, year, k).departureCount == 0 {
      EmptyMonth(db, year, k, measure);
    }
  }

  lemma {:induction false} PlanSumsMonths(db: Db, year: Year, measure: Measure, k: nat)
    ensures PlanTotal(MonthsUpTo(db, year, k), measure) == Total(k, MonthTotals(db, year, measure))
  {
    hide MonthTotal, MonthRowOf, RowAmount;
    if k > 0 {
      hide MonthsUpTo, PlanTotal;
      PlanSumsMonths(db, year, measure, k - 1);
      PlanAdds(db, year, measure, k);
    }
  }

  /** What a booking contributes to each month. */
  function MonthCells(db: Db, year: Year, measure: Measure): (nat, nat) -> nat {
    (i: nat, b: nat) => Share(db, b, BookedInMonth(db, b, year, i + 1), measure)
  }

  lemma BookingMonths(db: Db, year: Year, measure: Measure, b: nat)
    requires CalendarOk(year)
    ensures Total(12, ColumnOf(MonthCells(db, year, measure), b)) == Share(db, b, BookedInYear(db, b, year), measure)
  {
    var months := ColumnOf(MonthCells(db, year, measure), b);
    if BookedInYear(db, b, year) {
      var at := db.departures[db.bookings[b].departure].start;
      assert Within(at, year.from, year.to);
      TotalSingle(12, months, year.monthOf(at) - 1);
    } else {
      TotalZero(12, months);
    }
  }

  function YearShares(db: Db, year: Year, measure: Measure): nat -> nat {
    (b: nat) => Share(db, b, BookedInYear(db, b, year), measure)
  }

  /** Confirmed bookings whose departure the plan shows at all. */
  function YearTotal(db: Db, year: Year, measure: Measure): nat {
    Total(|db.bookings|, YearShares(db, year, measure))
  }

  lemma MonthsAreRows(db: Db, year: Year, measure: Measure)
    requires BookingsPlaced(db)
    ensures Total(12, MonthTotals(db, year, measure))
         == Total(12, RowSums(|db.bookings|, MonthCells(db, year, measure)))
  {
    var m, cells := |db.bookings|, MonthCells(db, year, measure);
    forall i | 0 <= i < 12 ensures MonthTotals(db, year, measure)(i) == RowSums(m, cells)(i) {
      MonthCountsOnce(db, year, i + 1, measure);
      TotalEqual(m, MonthShares(db, year, i + 1, measure), RowOf(cells, i));
    }
    hide MonthTotals, RowSums;
    TotalEqual(12, MonthTotals(db, year, measure), RowSums(m, cells));
  }

  lemma ColumnsAreBookings(db: Db, year: Year, measure: Measure)
    requires CalendarOk(year)
    ensures Total(|db.bookings|, ColumnSums(12, MonthCells(db, year, measure))) == YearTotal(db, year, measure)
  {
    var m, sums := |db.bookings|, ColumnSums(12, MonthCells(db, year, measure));
    forall b | 0 <= b < m ensures sums(b) == YearShares(db, year, measure)(b) {
      hide MonthCells, ColumnOf, CalendarOk;
      BookingMonths(db, year, measure, b);
    }
    hide *;
    TotalEqual(m, sums, YearShares(db, year, measure));
    YearTotalUnfolds(db, year, measure);
  }

  lemma YearTotalUnfolds(db: Db, year: Year, measure: Measure)
    ensures YearTotal(db, year, measure) == Total(|db.bookings|, YearShares(db, year, measure))
  {
  }

  /** Over the whole plan every confirmed booking of a planned departure counts exactly once. */
  lemma PlanCountsOnce(db: Db, year: Year, measure: Measure)
    requires BookingsPlaced(db) && CalendarOk(year)
    ensures PlanTotal(MonthlyPlan(db, year), measure) == YearTotal(db, year, measure)
  {
    hide MonthsUpTo, PlanTotal, Total, RowSums, MonthTotals, MonthCells, CalendarOk, BookingsPlaced;
    hide ColumnSums, YearTotal;
    PlanSumsMonths(db, year, measure, 12);
    MonthsAreRows(db, year, measure);
    TotalSwaps(12, |db.bookings|, MonthCells(db, year, measure));
    ColumnsAreBookings(db, year, measure);
  }

  predicate OnInactiveTour(db: Db, b: nat, from: int, to: int) {
    BookedWithin(db, b, from, to) && db.bookings[b].tour < |db.tours| && !db.tours[db.bookings[b].tour].active
  }

  /** Confirmed bookings of the period whose tour has been taken off sale. */
  function InactiveTotal(db: Db, from: int, to: int, measure: Measure): nat {
    Total(|db.bookings|, b => Share(db, b, OnInactiveTour(db, b, from, to), measure))
  }

  lemma ShareSplits(db: Db, year: Year, measure: Measure, b: nat)
    requires RowsOk(db) && b < |db.bookings|
    ensures Share(db, b, BookedWithin(db, b, year.from, year.to), measure)
         == Share(db, b, BookedInYear(db, b, year), measure)
            + Share(db, b, OnInactiveTour(db, b, year.from, year.to), measure)
  {
    if db.bookings[b].status == Confirmed {
      ConfirmedStands(db, b);
    }
  }

  /** Statistics over a year report what the plan reports plus the bookings on inactive tours, exactly. */
  lemma StatisticsAccountForPlan(db: Db, year: Year, measure: Measure)
    requires RowsOk(db) && CalendarOk(year)
    ensures PeriodTotal(db, year.from, year.to, measure)
         == PlanTotal(MonthlyPlan(db, year), measure) + InactiveTotal(db, year.from, year.to, measure)
  {
    RowsArePlaced(db);
    PlanCountsOnce(db, year, measure);
    hide RowsOk, MonthlyPlan, BookingsPlaced, CalendarOk;
    forall b | 0 <= b < |db.bookings|
      ensures Share(db, b, BookedWithin(db, b, year.from, year.to), measure)
           == Share(db, b, BookedInYear(db, b, year), measure)
              + Share(db, b, OnInactiveTour(db, b, year.from, year.to), measure)
    {
      ShareSplits(db, year, measure, b);
    }
    TotalAdds(|db.bookings|,
              YearShares(db, year, measure),
              b => Share(db, b, OnInactiveTour(db, b, year.from, year.to), measure),
              b => Share(db, b, BookedWithin(db, b, year.from, year.to), measure));
  }

  /** On every run: monthly travelers fit reserved spots and capacity, and for every measure the year's plan
      is the year's total without the bookings on inactive tours, so it never exceeds it.
    */
  lemma ReportsAgree(config: Config, now: int, steps: seq<Step>, year: Year, month: nat, measure: Measure)
    requires CalendarOk(year)
    ensures var row := MonthRowOf(Reached(config, now, steps).db, year, month);
      row.travelers <= row.reservedSpots <= row.capacity
    ensures var db := Reached(config, now, steps).db;
      PeriodTotal(db, year.from, year.to, measure)
      == PlanTotal(MonthlyPlan(db, year), measure) + InactiveTotal(db, year.from, year.to, measure)
  {
    ReachedInv(config, now, steps);
    var db := Reached(config, now, steps).db;
    assert RowsOk(db);
    hide RowsOk, Reached, MonthRowOf, MonthlyPlan, PeriodTotal, InactiveTotal, CalendarOk;
    MonthFits(db, year, month);
    StatisticsAccountForPlan(db, year, measure);
  }
}
