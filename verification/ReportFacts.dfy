/** What the reports count, stated on the booking and payment rows alone: how many confirmed bookings, how
    many of their seats, and how much was paid for them.
  */
module ReportFacts {
  import opened Rows
  import opened Seats
  import opened Invariant
  import opened Machine
  import opened Safety
  import opened Analytics
  import opened AnalyticsFacts
  import opened Rankings

  // --- sums over chosen bookings ---

  function Each(chosen: set<nat>): nat -> nat {
    (b: nat) => if b in chosen then 1 else 0
  }

  function Heads(db: Db, chosen: set<nat>): nat -> nat {
    (b: nat) => if b in chosen && b < |db.bookings| then db.bookings[b].quantity else 0
  }

  /** What the payment rows of the chosen bookings say. */
  function Paid(db: Db, chosen: set<nat>): nat -> nat {
    (b: nat) => if b in chosen && b in db.payments then db.payments[b].amountCents else 0
  }

  function Chairs(db: Db, chosen: set<nat>): nat -> int {
    (d: nat) => if d in chosen && d < |db.departures| then db.departures[d].available + db.departures[d].reserved else 0
  }

  function SumOf(n: nat, f: nat -> int): int {
    if n == 0 then 0 else SumOf(n - 1, f) + f(n - 1)
  }

  lemma {:induction false} TotalIsSum(n: nat, f: nat -> nat, g: nat -> int)
    requires forall i :: 0 <= i < n ==> f(i) == g(i)
    ensures Total(n, f) == SumOf(n, g)
  {
    if n > 0 {
      TotalIsSum(n - 1, f, g);
    }
  }

  lemma {:induction false} EachCounts(n: nat, f: nat -> nat, chosen: set<nat>)
    requires forall i :: 0 <= i < n ==> f(i) == if i in chosen then 1 else 0
    ensures Total(n, f) == |set i: nat | i < n && i in chosen|
  {
    if n == 0 {
      assert (set i: nat | i < 0 && i in chosen) == {};
    } else {
      EachCounts(n - 1, f, chosen);
      var front := set i: nat | i < n - 1 && i in chosen;
      if n - 1 in chosen {
        assert (set i: nat | i < n && i in chosen) == front + {n - 1};
      } else {
        assert (set i: nat | i < n && i in chosen) == front;
      }
    }
  }

  lemma EachCountsAll(n: nat, f: nat -> nat, chosen: set<nat>)
    requires forall i :: 0 <= i < n ==> f(i) == if i in chosen then 1 else 0
    requires forall i :: i in chosen ==> i < n
    ensures Total(n, f) == |chosen|
  {
    EachCounts(n, f, chosen);
    assert (set i: nat | i < n && i in chosen) == chosen;
  }

  /** A report's three sums over a selection are those of the chosen bookings. */
  ghost predicate Adds(db: Db, chosen: set<nat>, bookings: nat, travelers: nat, revenueCents: nat) {
    && bookings == |chosen|
    && travelers == Total(|db.bookings|, Heads(db, chosen))
    && revenueCents == Total(|db.bookings|, Paid(db, chosen))
  }

  /** The chosen bookings are the confirmed ones selected. */
  ghost predicate Chooses(db: Db, chosen: set<nat>, selected: nat -> bool) {
    forall b: nat :: b in chosen <==> b < |db.bookings| && db.bookings[b].status == Confirmed && selected(b)
  }

  lemma PaidIsOwed(db: Db, b: nat)
    requires RowsOk(db) && b < |db.bookings|
    ensures b in db.payments ==> db.payments[b].amountCents == db.bookings[b].totalCents
    ensures b !in db.payments ==> db.bookings[b].totalCents == 0
  {
  }

  ghost predicate Sums(db: Db, selected: nat -> bool, measure: Measure, f: nat -> nat) {
    forall b: nat :: b < |db.bookings| ==> f(b) == Share(db, b, selected(b), measure)
  }

  lemma SharesAdd(db: Db, chosen: set<nat>, selected: nat -> bool, each: nat -> nat, heads: nat -> nat,
                  money: nat -> nat)
    requires RowsOk(db) && Chooses(db, chosen, selected)
    requires Sums(db, selected, Bookings, each) && Sums(db, selected, Travelers, heads)
    requires Sums(db, selected, Revenue, money)
    ensures Adds(db, chosen, Total(|db.bookings|, each), Total(|db.bookings|, heads), Total(|db.bookings|, money))
  {
    hide RowsOk;
    var n := |db.bookings|;
    forall b | 0 <= b < n ensures each(b) == (if b in chosen then 1 else 0) && heads(b) == Heads(db, chosen)(b) {
      assert each(b) == Share(db, b, selected(b), Bookings);
    }
    EachCountsAll(n, each, chosen);
    TotalEqual(n, heads, Heads(db, chosen));
    forall b | 0 <= b < n ensures money(b) == Paid(db, chosen)(b) {
      PaidIsOwed(db, b);
    }
    TotalEqual(n, money, Paid(db, chosen));
  }

  // --- statistics ---

  /** Confirmed bookings that start in the period. */
  function BookingsWithin(db: Db, from: int, to: int): set<nat> {
    set b: nat | b < |db.bookings| && db.bookings[b].status == Confirmed && from <= db.bookings[b].start < to
  }

  function DeparturesWithin(db: Db, from: int, to: int): set<nat> {
    set d: nat | d < |db.departures| && from <= db.departures[d].start < to
  }

  function ToursWithin(db: Db, from: int, to: int): set<nat> {
    set d: nat | d in DeparturesWithin(db, from, to) && d < |db.departures| :: db.departures[d].tour
  }

  lemma PeriodAdds(db: Db, from: int, to: int)
    requires RowsOk(db)
    ensures Adds(db, BookingsWithin(db, from, to), PeriodTotal(db, from, to, Bookings),
                 PeriodTotal(db, from, to, Travelers), PeriodTotal(db, from, to, Revenue))
  {
    hide RowsOk;
    var n := |db.bookings|;
    SharesAdd(db, BookingsWithin(db, from, to), (b: nat) => BookedWithin(db, b, from, to),
              PeriodShares(db, from, to, Bookings), PeriodShares(db, from, to, Travelers),
              PeriodShares(db, from, to, Revenue));
    TotalEqual(n, PeriodShares(db, from, to, Bookings), b => Share(db, b, BookedWithin(db, b, from, to), Bookings));
    TotalEqual(n, PeriodShares(db, from, to, Travelers), b => Share(db, b, BookedWithin(db, b, from, to), Travelers));
    TotalEqual(n, PeriodShares(db, from, to, Revenue), b => Share(db, b, BookedWithin(db, b, from, to), Revenue));
  }

  lemma DeparturesCount(db: Db, from: int, to: int)
    ensures Total(|db.departures|, d => Count(DepartsWithin(db, d, from, to))) == |DeparturesWithin(db, from, to)|
  {
    EachCountsAll(|db.departures|, d => Count(DepartsWithin(db, d, from, to)), DeparturesWithin(db, from, to));
  }

  lemma ToursCount(db: Db, from: int, to: int)
    requires forall d :: 0 <= d < |db.departures| ==> db.departures[d].tour < |db.tours|
    ensures Total(|db.tours|, t => Count(TourDepartsWithin(db, t, from, to))) == |ToursWithin(db, from, to)|
  {
    var met := ToursWithin(db, from, to);
    forall t: nat | t < |db.tours| ensures TourDepartsWithin(db, t, from, to) <==> t in met {
      if TourDepartsWithin(db, t, from, to) {
        var d :| 0 <= d < |db.departures| && DepartsWithin(db, d, from, to) && db.departures[d].tour == t;
        assert d in DeparturesWithin(db, from, to);
      }
    }
    EachCountsAll(|db.tours|, t => Count(TourDepartsWithin(db, t, from, to)), met);
  }

  lemma SpotsAdd(db: Db, f: nat -> nat, chosen: set<nat>)
    requires RowsOk(db)
    requires forall d: nat :: d < |db.departures| ==> f(d) == if d in chosen then Spots(db, d) else 0
    ensures Total(|db.departures|, f) == SumOf(|db.departures|, Chairs(db, chosen))
  {
    forall d | 0 <= d < |db.departures| ensures f(d) == Chairs(db, chosen)(d) {
      assert SeatOk(db.tours, db.departures[d], Held(db.bookings, d));
    }
    TotalIsSum(|db.departures|, f, Chairs(db, chosen));
  }

  lemma CapacityAdds(db: Db, from: int, to: int)
    requires RowsOk(db)
    ensures Total(|db.departures|, d => if DepartsWithin(db, d, from, to) then Spots(db, d) else 0)
         == SumOf(|db.departures|, Chairs(db, DeparturesWithin(db, from, to)))
  {
    hide RowsOk, Spots;
    SpotsAdd(db, d => if DepartsWithin(db, d, from, to) then Spots(db, d) else 0, DeparturesWithin(db, from, to));
  }

  lemma ToursPlaced(db: Db)
    requires RowsOk(db)
    ensures forall d :: 0 <= d < |db.departures| ==> db.departures[d].tour < |db.tours|
  {
    forall d | 0 <= d < |db.departures| ensures db.departures[d].tour < |db.tours| {
      assert SeatOk(db.tours, db.departures[d], Held(db.bookings, d));
    }
  }

  /** The report of a period counts its tours and departures and all their seats, its confirmed bookings,
      their travelers and what was paid for them, with the mean payment to the nearest cent.
    */
  ghost predicate ReportsTruly(db: Db, from: int, to: int, stats: Statistics) {
    && stats.tours == |ToursWithin(db, from, to)| && stats.departures == |DeparturesWithin(db, from, to)|
    && stats.capacity == SumOf(|db.departures|, Chairs(db, DeparturesWithin(db, from, to)))
    && Adds(db, BookingsWithin(db, from, to), stats.confirmedBookings, stats.travelers, stats.revenueCents)
    && (stats.averageCents.Some? <==> BookingsWithin(db, from, to) != {})
    && (stats.averageCents.Some? ==>
          var n := stats.confirmedBookings;
          -(n as int) <= 2 * (stats.averageCents.value * n - stats.revenueCents) <= n)
  }

  lemma PeriodReportsTruly(db: Db, from: int, to: int)
    requires RowsOk(db) && RangeOk(from, to)
    ensures StatisticsOf(db, from, to).Some? && ReportsTruly(db, from, to, StatisticsOf(db, from, to).value)
  {
    hide RowsOk, ToursWithin, DeparturesWithin;
    PeriodAdds(db, from, to);
    ToursPlaced(db);
    DeparturesCount(db, from, to);
    ToursCount(db, from, to);
    CapacityAdds(db, from, to);
    hide PeriodTotal, BookingsWithin;
  }

  /** On every run the statistics of at most 366 days report truly, and no others are given. */
  lemma StatisticsReportTruly(config: Config, now: int, steps: seq<Step>, from: int, to: int)
    ensures var report := StatisticsOf(Reached(config, now, steps).db, from, to);
      && (report.Some? <==> from < to <= from + 366 * 24 * 60 * 60 * 1000)
      && (report.Some? ==> ReportsTruly(Reached(config, now, steps).db, from, to, report.value))
  {
    ReachedInv(config, now, steps);
    assert RowsOk(Reached(config, now, steps).db);
    hide Reached, RowsOk, ReportsTruly;
    if RangeOk(from, to) {
      PeriodReportsTruly(Reached(config, now, steps).db, from, to);
    }
  }

  // --- the monthly plan ---

  /** Departures the plan shows in the month: live, active, in the year, on a live and active tour. */
  function DeparturesShown(db: Db, year: Year, month: nat): set<nat> {
    set d: nat | d < |db.departures| && var row := db.departures[d];
      && row.active && !row.deleted && year.from <= row.start < year.to && year.monthOf(row.start) == month
      && row.tour < |db.tours| && db.tours[row.tour].active && !db.tours[row.tour].deleted
  }

  /** Confirmed bookings of those departures. */
  function BookingsShown(db: Db, year: Year, month: nat): set<nat> {
    set b: nat | b < |db.bookings| && db.bookings[b].status == Confirmed
      && db.bookings[b].departure in DeparturesShown(db, year, month)
  }

  lemma ShownIsPlanned(db: Db, year: Year, month: nat, d: nat)
    ensures d in DeparturesShown(db, year, month) <==> PlannedIn(db, d, year, month)
  {
  }

  lemma MonthAdds(db: Db, year: Year, month: nat)
    requires RowsOk(db)
    ensures Adds(db, BookingsShown(db, year, month), MonthTotal(db, year, month, Bookings),
                 MonthTotal(db, year, month, Travelers), MonthTotal(db, year, month, Revenue))
  {
    RowsArePlaced(db);
    hide RowsOk;
    var n := |db.bookings|;
    forall d: nat ensures d in DeparturesShown(db, year, month) <==> PlannedIn(db, d, year, month) {
      ShownIsPlanned(db, year, month, d);
    }
    hide PlannedIn, DeparturesShown;
    SharesAdd(db, BookingsShown(db, year, month), (b: nat) => BookedInMonth(db, b, year, month),
              MonthShares(db, year, month, Bookings), MonthShares(db, year, month, Travelers),
              MonthShares(db, year, month, Revenue));
    MonthCountsOnce(db, year, month, Bookings);
    MonthCountsOnce(db, year, month, Travelers);
    MonthCountsOnce(db, year, month, Revenue);
  }

  function Reserves(db: Db, chosen: set<nat>): nat -> int {
    (d: nat) => if d in chosen && d < |db.departures| then db.departures[d].reserved else 0
  }

  lemma MonthSeats(db: Db, year: Year, month: nat)
    requires RowsOk(db)
    ensures var row, shown := MonthRowOf(db, year, month), DeparturesShown(db, year, month);
      && row.departureCount == |shown|
      && row.capacity == SumOf(|db.departures|, Chairs(db, shown))
      && row.reservedSpots == SumOf(|db.departures|, Reserves(db, shown))
  {
    var shown := DeparturesShown(db, year, month);
    forall d: nat ensures d in shown <==> PlannedIn(db, d, year, month) {
      ShownIsPlanned(db, year, month, d);
    }
    forall d: nat | d in shown ensures d < |db.departures| {
    }
    hide PlannedIn, DeparturesShown;
    EachCountsAll(|db.departures|, PlannedCount(db, year, month), shown);
    forall d | 0 <= d < |db.departures| ensures PlannedReserved(db, year, month)(d) == Reserves(db, shown)(d) {
      assert SeatOk(db.tours, db.departures[d], Held(db.bookings, d));
    }
    TotalIsSum(|db.departures|, PlannedReserved(db, year, month), Reserves(db, shown));
    hide RowsOk, Spots;
    SpotsAdd(db, PlannedSpots(db, year, month), shown);
  }

  lemma {:induction false} MonthsListed(db: Db, year: Year, k: nat, row: MonthRow)
    ensures row in MonthsUpTo(db, year, k)
       <==> 1 <= row.month <= k && row == MonthRowOf(db, year, row.month) && row.departureCount > 0
    ensures var rows := MonthsUpTo(db, year, k);
      forall i, j :: 0 <= i < j < |rows| ==> rows[i].month < rows[j].month <= k
  {
    if k > 0 {
      MonthsListed(db, year, k - 1, row);
      var front := MonthsUpTo(db, year, k - 1);
      forall i | 0 <= i < |front| ensures front[i].month <= k - 1 {
        MonthsListed(db, year, k - 1, front[i]);
      }
    }
  }

  /** On every run a month's row counts its shown departures and their seats, the confirmed bookings of these
      departures, their travelers and what was paid for them; the plan lists the months with a departure, in
      order.
    */
  lemma PlanReportsTruly(config: Config, now: int, steps: seq<Step>, year: Year, row: MonthRow)
    ensures var db := Reached(config, now, steps).db; var plan := MonthlyPlan(db, year);
      var shown := DeparturesShown(db, year, row.month);
      && (row in plan ==>
            && 1 <= row.month <= 12 && row.departureCount == |shown| > 0
            && row.capacity == SumOf(|db.departures|, Chairs(db, shown))
            && row.reservedSpots == SumOf(|db.departures|, Reserves(db, shown))
            && Adds(db, BookingsShown(db, year, row.month), row.confirmedBookings, row.travelers, row.revenueCents))
      && (1 <= row.month <= 12 && shown != {} ==> exists i :: 0 <= i < |plan| && plan[i].month == row.month)
      && (forall i, j :: 0 <= i < j < |plan| ==> plan[i].month < plan[j].month)
  {
    var db := Reached(config, now, steps).db;
    ReachedInv(config, now, steps);
    assert RowsOk(db);
    hide Reached, RowsOk, DeparturesShown, MonthsUpTo;
    MonthsListed(db, year, 12, row);
    MonthsListed(db, year, 12, MonthRowOf(db, year, row.month));
    MonthAdds(db, year, row.month);
    MonthSeats(db, year, row.month);
    hide MonthTotal;
  }

  // --- rankings ---

  /** Confirmed bookings of the tour that start in the period. */
  function BookingsFor(db: Db, t: nat, from: int, to: int): set<nat> {
    set b: nat | b in BookingsWithin(db, from, to) && b < |db.bookings| && db.bookings[b].tour == t
  }

  lemma TourAdds(db: Db, t: nat, from: int, to: int)
    requires RowsOk(db)
    ensures Adds(db, BookingsFor(db, t, from, to), TourTotal(db, from, to, Bookings)(t),
                 TourTotal(db, from, to, Travelers)(t), TourTotal(db, from, to, Revenue)(t))
  {
    hide RowsOk;
    SharesAdd(db, BookingsFor(db, t, from, to), (b: nat) => BookedFor(db, b, t, from, to),
              TourShares(db, t, from, to, Bookings), TourShares(db, t, from, to, Travelers),
              TourShares(db, t, from, to, Revenue));
  }

  /** More money first, then more travelers, then the better rating with unrated tours last, then the smaller
      identifier.
    */
  predicate Outranks(x: RankRow, y: RankRow) {
    || x.revenueCents > y.revenueCents
    || (x.revenueCents == y.revenueCents && x.travelers > y.travelers)
    || (x.revenueCents == y.revenueCents && x.travelers == y.travelers
        && x.rating.Some? && (y.rating.None? || x.rating.value > y.rating.value))
    || (x.revenueCents == y.revenueCents && x.travelers == y.travelers && x.rating == y.rating && x.tour < y.tour)
  }

  /** A row of the ranking counts the tour's bookings, travelers and payments and shows its rating. */
  ghost predicate RanksTruly(db: Db, from: int, to: int, x: RankRow) {
    && x.tour < |db.tours| && x.rating == db.tours[x.tour].ratingAverage
    && BookingsFor(db, x.tour, from, to) != {}
    && Adds(db, BookingsFor(db, x.tour, from, to), x.confirmedBookings, x.travelers, x.revenueCents)
  }

  lemma RowRanksTruly(db: Db, from: int, to: int, t: nat)
    requires RowsOk(db) && t < |db.tours|
    ensures RankRowOf(db, t, from, to).tour == t
    ensures RankRowOf(db, t, from, to).confirmedBookings > 0 <==> BookingsFor(db, t, from, to) != {}
    ensures BookingsFor(db, t, from, to) != {} ==> RanksTruly(db, from, to, RankRowOf(db, t, from, to))
  {
    TourAdds(db, t, from, to);
    hide RowsOk, TourTotal, BookingsFor, Heads, Paid;
  }

  lemma RanksInOrder(rows: seq<RankRow>, i: nat, j: nat)
    requires Descending(rows) && i < j < |rows|
    ensures Outranks(rows[i], rows[j])
  {
  }

  ghost predicate RankingTrue(db: Db, from: int, to: int, all: seq<RankRow>) {
    && (forall i, j :: 0 <= i < j < |all| ==> Outranks(all[i], all[j]))
    && (forall x :: x in all ==> RanksTruly(db, from, to, x))
    && (forall t: nat :: t < |db.tours| && BookingsFor(db, t, from, to) != {} ==> Ranked(all, t))
  }

  predicate Ranked(all: seq<RankRow>, t: nat) {
    exists i :: 0 <= i < |all| && all[i].tour == t
  }

  lemma AllRanksTruly(db: Db, from: int, to: int)
    requires RowsOk(db)
    ensures RankingTrue(db, from, to, AllRankings(db, from, to))
  {
    var all := AllRankings(db, from, to);
    hide RowsOk, AllRankings, RankRowOf, RanksTruly, Outranks, BookingsFor;
    forall i, j | 0 <= i < j < |all| ensures Outranks(all[i], all[j]) {
      RankingIsRight(db, from, to, all[i]);
      RanksInOrder(all, i, j);
    }
    hide Descending;
    forall x | x in all ensures RanksTruly(db, from, to, x) {
      RankingIsRight(db, from, to, x);
      RowRanksTruly(db, from, to, x.tour);
    }
    forall t: nat | t < |db.tours| && BookingsFor(db, t, from, to) != {} ensures Ranked(all, t) {
      RowRanksTruly(db, from, to, t);
      RankingIsRight(db, from, to, RankRowOf(db, t, from, to));
    }
  }

  /** On every run the ranking of at most 366 days lists exactly the tours with a confirmed booking of the
      period, each with the bookings, travelers and payments of these and its rating, whoever outranks first;
      a limit keeps the top.
    */
  lemma RankingReportsTruly(config: Config, now: int, steps: seq<Step>, from: int, to: int, limit: nat)
    ensures var db := Reached(config, now, steps).db;
      var report, all := RankingsOf(db, from, to, limit), AllRankings(db, from, to);
      && (report.Some? <==> from < to <= from + 366 * 24 * 60 * 60 * 1000)
      && (report.Some? ==> report.value <= all && |report.value| == if limit < |all| then limit else |all|)
      && RankingTrue(db, from, to, all)
  {
    ReachedInv(config, now, steps);
    assert RowsOk(Reached(config, now, steps).db);
    hide Reached, RowsOk, AllRankings, RankingTrue;
    AllRanksTruly(Reached(config, now, steps).db, from, to);
  }
}
