/** The statistics report: what its fields count, and how they agree with the plan and the rankings. */
module StatisticsFacts {
  import opened Rows
  import opened Seats
  import opened Invariant
  import opened Machine
  import opened Safety
  import opened Analytics
  import opened AnalyticsFacts
  import opened Rankings

  // --- travelers and capacity ---

  /** A booking meets a departure of the period. */
  function PeriodCells(db: Db, from: int, to: int, measure: Measure): (nat, nat) -> nat {
    (d: nat, b: nat) => if DepartsWithin(db, d, from, to) then Share(db, b, BookedOn(db, b, d), measure) else 0
  }

  function PeriodBookings(db: Db, from: int, to: int, measure: Measure): nat -> nat {
    (d: nat) => if DepartsWithin(db, d, from, to) then DepartureTotal(db, d, measure) else 0
  }

  function PeriodSpots(db: Db, from: int, to: int): nat -> nat {
    (d: nat) => if DepartsWithin(db, d, from, to) then Spots(db, d) else 0
  }

  lemma PeriodRow(db: Db, from: int, to: int, measure: Measure, d: nat)
    ensures Total(|db.bookings|, RowOf(PeriodCells(db, from, to, measure), d))
         == PeriodBookings(db, from, to, measure)(d)
  {
    var row := RowOf(PeriodCells(db, from, to, measure), d);
    if DepartsWithin(db, d, from, to) {
      TotalEqual(|db.bookings|, row, b => Share(db, b, BookedOn(db, b, d), measure));
    } else {
      TotalZero(|db.bookings|, row);
    }
  }

  lemma PeriodColumn(db: Db, from: int, to: int, measure: Measure, b: nat)
    requires RowsOk(db) && b < |db.bookings|
    ensures Total(|db.departures|, ColumnOf(PeriodCells(db, from, to, measure), b))
         == PeriodShares(db, from, to, measure)(b)
  {
    RowsArePlaced(db);
    var column := ColumnOf(PeriodCells(db, from, to, measure), b);
    if db.bookings[b].status == Confirmed {
      ConfirmedStands(db, b);
      hide RowsOk;
      var k := db.bookings[b].departure;
      assert DepartsWithin(db, k, from, to) <==> BookedWithin(db, b, from, to);
      assert BookedOn(db, b, k);
      assert column(k) == PeriodShares(db, from, to, measure)(b);
      TotalSingle(|db.departures|, column, k);
    } else {
      TotalZero(|db.departures|, column);
    }
  }

  /** The period's bookings are those of the period's departures: a confirmed booking's snapshot is where its
      departure stands.
    */
  lemma PeriodByDeparture(db: Db, from: int, to: int, measure: Measure)
    requires RowsOk(db)
    ensures PeriodTotal(db, from, to, measure) == Total(|db.departures|, PeriodBookings(db, from, to, measure))
  {
    hide RowsOk;
    var n, m, cells := |db.departures|, |db.bookings|, PeriodCells(db, from, to, measure);
    TotalSwaps(n, m, cells);
    forall d | 0 <= d < n ensures RowSums(m, cells)(d) == PeriodBookings(db, from, to, measure)(d) {
      PeriodRow(db, from, to, measure, d);
    }
    TotalEqual(n, RowSums(m, cells), PeriodBookings(db, from, to, measure));
    forall b | 0 <= b < m ensures ColumnSums(n, cells)(b) == PeriodShares(db, from, to, measure)(b) {
      PeriodColumn(db, from, to, measure, b);
    }
    TotalEqual(m, ColumnSums(n, cells), PeriodShares(db, from, to, measure));
    TotalEqual(m, PeriodShares(db, from, to, measure), b => Share(db, b, BookedWithin(db, b, from, to), measure));
  }

  /** Nobody travels without a seat: the period's travelers fit the period's capacity. */
  lemma TravelersFitCapacity(db: Db, from: int, to: int)
    requires RowsOk(db)
    ensures PeriodTotal(db, from, to, Travelers) <= Total(|db.departures|, PeriodSpots(db, from, to))
  {
    hide RowsOk;
    PeriodByDeparture(db, from, to, Travelers);
    forall d | 0 <= d < |db.departures|
      ensures PeriodBookings(db, from, to, Travelers)(d) <= PeriodSpots(db, from, to)(d)
    {
      TravelersFit(db, d);
    }
    TotalAtMost(|db.departures|, PeriodBookings(db, from, to, Travelers), PeriodSpots(db, from, to));
  }

  // --- tours and departures ---

  function TourCounts(db: Db, from: int, to: int): nat -> nat {
    (t: nat) => Count(TourDepartsWithin(db, t, from, to))
  }

  function DepartureCounts(db: Db, from: int, to: int): nat -> nat {
    (d: nat) => Count(DepartsWithin(db, d, from, to))
  }

  predicate DepartsFor(db: Db, d: nat, t: nat, from: int, to: int) {
    DepartsWithin(db, d, from, to) && db.departures[d].tour == t
  }

  /** A tour meets one of its departures of the period. */
  function TourDepartures(db: Db, from: int, to: int): (nat, nat) -> nat {
    (t: nat, d: nat) => Count(DepartsFor(db, d, t, from, to))
  }

  lemma TourIsMet(db: Db, from: int, to: int, t: nat)
    ensures TourCounts(db, from, to)(t) <= Total(|db.departures|, RowOf(TourDepartures(db, from, to), t))
  {
    if TourDepartsWithin(db, t, from, to) {
      var d :| 0 <= d < |db.departures| && DepartsWithin(db, d, from, to) && db.departures[d].tour == t;
      TotalCovers(|db.departures|, RowOf(TourDepartures(db, from, to), t), d);
    }
  }

  ghost predicate DeparturesPlaced(db: Db) {
    forall d :: 0 <= d < |db.departures| ==> db.departures[d].tour < |db.tours|
  }

  lemma DepartureMeetsOne(db: Db, from: int, to: int, d: nat)
    requires DeparturesPlaced(db) && d < |db.departures|
    ensures Total(|db.tours|, ColumnOf(TourDepartures(db, from, to), d)) == DepartureCounts(db, from, to)(d)
  {
    var column := ColumnOf(TourDepartures(db, from, to), d);
    forall t: nat | t != db.departures[d].tour ensures column(t) == 0 {
      assert !DepartsFor(db, d, t, from, to);
    }
    TotalSingle(|db.tours|, column, db.departures[d].tour);
  }

  /** Distinct tours are no more than departures, and there is a tour exactly when there is a departure. */
  lemma ToursAndDepartures(db: Db, from: int, to: int)
    requires DeparturesPlaced(db)
    ensures Total(|db.tours|, TourCounts(db, from, to)) <= Total(|db.departures|, DepartureCounts(db, from, to))
    ensures Total(|db.tours|, TourCounts(db, from, to)) == 0
       <==> Total(|db.departures|, DepartureCounts(db, from, to)) == 0
  {
    var n, m, cells := |db.tours|, |db.departures|, TourDepartures(db, from, to);
    TotalSwaps(n, m, cells);
    forall t | 0 <= t < n ensures TourCounts(db, from, to)(t) <= RowSums(m, cells)(t) {
      TourIsMet(db, from, to, t);
    }
    TotalAtMost(n, TourCounts(db, from, to), RowSums(m, cells));
    forall d | 0 <= d < m ensures ColumnSums(n, cells)(d) == DepartureCounts(db, from, to)(d) {
      DepartureMeetsOne(db, from, to, d);
    }
    TotalEqual(m, ColumnSums(n, cells), DepartureCounts(db, from, to));
    if Total(n, TourCounts(db, from, to)) == 0 {
      NoTourNoDeparture(db, from, to);
    }
  }

  lemma NoTourNoDeparture(db: Db, from: int, to: int)
    requires DeparturesPlaced(db) && Total(|db.tours|, TourCounts(db, from, to)) == 0
    ensures Total(|db.departures|, DepartureCounts(db, from, to)) == 0
  {
    forall d | 0 <= d < |db.departures| ensures DepartureCounts(db, from, to)(d) == 0 {
      TotalCovers(|db.tours|, TourCounts(db, from, to), db.departures[d].tour);
    }
    TotalZero(|db.departures|, DepartureCounts(db, from, to));
  }

  // --- the report ---

  lemma ReportFields(db: Db, from: int, to: int)
    requires RangeOk(from, to)
    ensures StatisticsOf(db, from, to).Some?
    ensures var stats := StatisticsOf(db, from, to).value;
      && stats.tours == Total(|db.tours|, TourCounts(db, from, to))
      && stats.departures == Total(|db.departures|, DepartureCounts(db, from, to))
      && stats.capacity == Total(|db.departures|, PeriodSpots(db, from, to))
  {
    TotalEqual(|db.tours|, t => Count(TourDepartsWithin(db, t, from, to)), TourCounts(db, from, to));
    TotalEqual(|db.departures|, d => Count(DepartsWithin(db, d, from, to)), DepartureCounts(db, from, to));
    TotalEqual(|db.departures|, d => if DepartsWithin(db, d, from, to) then Spots(db, d) else 0,
               PeriodSpots(db, from, to));
  }

  lemma PlacedAndCounted(db: Db)
    requires RowsOk(db)
    ensures DeparturesPlaced(db)
    ensures forall d :: 0 <= d < |db.departures| ==>
              Spots(db, d) == db.departures[d].available + db.departures[d].reserved
  {
    forall d | 0 <= d < |db.departures|
      ensures db.departures[d].tour < |db.tours|
      ensures Spots(db, d) == db.departures[d].available + db.departures[d].reserved
    {
      assert SeatOk(db.tours, db.departures[d], Held(db.bookings, d));
    }
  }

  /** On every run the statistics of a valid period count no more tours than departures and some tour exactly
      when some departure, seat no more travelers than their capacity, count every departure's spots in full,
      have an average exactly when they have a booking, and agree with the full ranking in every total.
    */
  lemma StatisticsAreSound(config: Config, now: int, steps: seq<Step>, from: int, to: int)
    requires RangeOk(from, to)
    ensures var db := Reached(config, now, steps).db;
      && StatisticsOf(db, from, to).Some?
      && var stats := StatisticsOf(db, from, to).value; var ranking := AllRankings(db, from, to);
         && stats.tours <= stats.departures && (stats.tours == 0 <==> stats.departures == 0)
         && stats.travelers <= stats.capacity
         && (forall d :: 0 <= d < |db.departures| ==>
               Spots(db, d) == db.departures[d].available + db.departures[d].reserved)
         && (stats.averageCents.Some? <==> stats.confirmedBookings > 0)
         && RankTotal(ranking, Bookings) == stats.confirmedBookings
         && RankTotal(ranking, Travelers) == stats.travelers
         && RankTotal(ranking, Revenue) == stats.revenueCents
  {
    var db := Reached(config, now, steps).db;
    ReachedInv(config, now, steps);
    PlacedAndCounted(db);
    TravelersFitCapacity(db, from, to);
    hide Reached, RowsOk, DeparturesPlaced, AllRankings, Spots;
    ReportFields(db, from, to);
    ToursAndDepartures(db, from, to);
    RankingsSumToStatistics(config, now, steps, from, to, Bookings);
    RankingsSumToStatistics(config, now, steps, from, to, Travelers);
    RankingsSumToStatistics(config, now, steps, from, to, Revenue);
  }

  /** On every run the statistics report of a year is the year's plan plus the confirmed bookings on inactive
      tours, for bookings, travelers and revenue alike; so the plan never exceeds the statistics.
    */
  lemma StatisticsReportThePlan(config: Config, now: int, steps: seq<Step>, year: Year)
    requires CalendarOk(year) && RangeOk(year.from, year.to)
    ensures var db := Reached(config, now, steps).db; var plan := MonthlyPlan(db, year);
      && StatisticsOf(db, year.from, year.to).Some?
      && var stats := StatisticsOf(db, year.from, year.to).value;
         && stats.confirmedBookings == PlanTotal(plan, Bookings) + InactiveTotal(db, year.from, year.to, Bookings)
         && stats.travelers == PlanTotal(plan, Travelers) + InactiveTotal(db, year.from, year.to, Travelers)
         && stats.revenueCents == PlanTotal(plan, Revenue) + InactiveTotal(db, year.from, year.to, Revenue)
  {
    var db := Reached(config, now, steps).db;
    ReachedInv(config, now, steps);
    assert RowsOk(db);
    hide Reached, RowsOk, MonthlyPlan, InactiveTotal, CalendarOk, PeriodTotal;
    StatisticsAccountForPlan(db, year, Bookings);
    StatisticsAccountForPlan(db, year, Travelers);
    StatisticsAccountForPlan(db, year, Revenue);
  }
}
