/** Reports over the booking rows: rankings, statistics and the monthly plan. */
module Analytics {
  import opened Rows

  // --- finite sums ---

  /** f(0) + ... + f(n - 1). */
  function Total(n: nat, f: nat -> nat): nat {
    if n == 0 then 0 else Total(n - 1, f) + f(n - 1)
  }

  lemma {:induction false} TotalEqual(n: nat, f: nat -> nat, g: nat -> nat)
    requires forall i :: 0 <= i < n ==> f(i) == g(i)
    ensures Total(n, f) == Total(n, g)
  {
    if n > 0 {
      TotalEqual(n - 1, f, g);
    }
  }

  lemma {:induction false} TotalAtMost(n: nat, f: nat -> nat, g: nat -> nat)
    requires forall i :: 0 <= i < n ==> f(i) <= g(i)
    ensures Total(n, f) <= Total(n, g)
  {
    if n > 0 {
      TotalAtMost(n - 1, f, g);
    }
  }

  lemma {:induction false} TotalAdds(n: nat, f: nat -> nat, g: nat -> nat, h: nat -> nat)
    requires forall i :: 0 <= i < n ==> h(i) == f(i) + g(i)
    ensures Total(n, h) == Total(n, f) + Total(n, g)
  {
    if n > 0 {
      TotalAdds(n - 1, f, g, h);
    }
  }

  lemma {:induction false} TotalZero(n: nat, f: nat -> nat)
    requires forall i :: 0 <= i < n ==> f(i) == 0
    ensures Total(n, f) == 0
  {
    if n > 0 {
      TotalZero(n - 1, f);
    }
  }

  /** A sum with one term in it is that term. */
  lemma {:induction false} TotalSingle(n: nat, f: nat -> nat, k: nat)
    requires k < n && forall i :: 0 <= i < n && i != k ==> f(i) == 0
    ensures Total(n, f) == f(k)
  {
    if k == n - 1 {
      TotalZero(n - 1, f);
    } else {
      TotalSingle(n - 1, f, k);
    }
  }

  function RowOf(g: (nat, nat) -> nat, i: nat): nat -> nat {
    j => g(i, j)
  }

  function ColumnOf(g: (nat, nat) -> nat, j: nat): nat -> nat {
    i => g(i, j)
  }

  function RowSums(m: nat, g: (nat, nat) -> nat): nat -> nat {
    i => Total(m, RowOf(g, i))
  }

  function ColumnSums(n: nat, g: (nat, nat) -> nat): nat -> nat {
    j => Total(n, ColumnOf(g, j))
  }

  /** Summing rows first or columns first is the same. */
  lemma {:induction false} TotalSwaps(n: nat, m: nat, g: (nat, nat) -> nat)
    ensures Total(n, RowSums(m, g)) == Total(m, ColumnSums(n, g))
  {
    if n == 0 {
      TotalZero(m, ColumnSums(0, g));
    } else {
      TotalSwaps(n - 1, m, g);
      TotalAdds(m, ColumnSums(n - 1, g), RowOf(g, n - 1), ColumnSums(n, g));
    }
  }

  // --- what the reports add up ---

  datatype Measure = Bookings | Travelers | Revenue

  function Amount(row: Booking, measure: Measure): nat {
    match measure
    case Bookings => 1
    case Travelers => row.quantity
    case Revenue => row.totalCents
  }

  /** What a booking contributes to a report that selects it. */
  function Share(db: Db, b: nat, selected: bool, measure: Measure): nat {
    if b < |db.bookings| && db.bookings[b].status == Confirmed && selected
    then Amount(db.bookings[b], measure) else 0
  }

  predicate Within(at: int, from: int, to: int) {
    from <= at < to
  }

  predicate BookedWithin(db: Db, b: nat, from: int, to: int) {
    b < |db.bookings| && Within(db.bookings[b].start, from, to)
  }

  predicate BookedOn(db: Db, b: nat, d: nat) {
    b < |db.bookings| && db.bookings[b].departure == d
  }

  /** Confirmed bookings of the period. */
  function PeriodTotal(db: Db, from: int, to: int, measure: Measure): nat {
    Total(|db.bookings|, b => Share(db, b, BookedWithin(db, b, from, to), measure))
  }

  /** Confirmed bookings of one departure: one row of the plan's pre-aggregation. */
  function DepartureTotal(db: Db, d: nat, measure: Measure): nat {
    Total(|db.bookings|, b => Share(db, b, BookedOn(db, b, d), measure))
  }

  // --- statistics ---

  const DAY_MS := 86400000

  predicate RangeOk(from: int, to: int) {
    from < to && to - from <= 366 * DAY_MS
  }

  datatype Statistics = Statistics(
    tours: nat, departures: nat, capacity: int,
    confirmedBookings: nat, travelers: nat, revenueCents: nat, averageCents: Option<nat>)

  predicate DepartsWithin(db: Db, d: nat, from: int, to: int) {
    d < |db.departures| && Within(db.departures[d].start, from, to)
  }

  predicate TourDepartsWithin(db: Db, t: nat, from: int, to: int) {
    exists d :: 0 <= d < |db.departures| && DepartsWithin(db, d, from, to) && db.departures[d].tour == t
  }

  function Count(selected: bool): nat {
    if selected then 1 else 0
  }

  /** Seats a live or retired departure stands for; inventory is never negative on a run. */
  function Spots(db: Db, d: nat): nat {
    if d < |db.departures| && db.departures[d].available >= 0 && db.departures[d].reserved >= 0
    then db.departures[d].available + db.departures[d].reserved else 0
  }

  function ReservedSpots(db: Db, d: nat): nat {
    if d < |db.departures| && db.departures[d].reserved >= 0 then db.departures[d].reserved else 0
  }

  /** Mean to the nearest cent, halves up; no mean without bookings. */
  function MeanCents(sum: nat, count: nat): (mean: Option<nat>)
    ensures mean.Some? <==> count > 0
    ensures mean.Some? ==> -(count as int) <= 2 * (mean.value * count - sum) <= count
  {
    if count == 0 then None
    else
      var mean := (2 * sum + count) / (2 * count);
      assert 2 * count * mean <= 2 * sum + count < 2 * count * mean + 2 * count;
      Some(mean)
  }

  function StatisticsOf(db: Db, from: int, to: int): Option<Statistics> {
    if !RangeOk(from, to) then None
    else
      var bookings, revenue := PeriodTotal(db, from, to, Bookings), PeriodTotal(db, from, to, Revenue);
      Some(Statistics(
        Total(|db.tours|, t => Count(TourDepartsWithin(db, t, from, to))),
        Total(|db.departures|, d => Count(DepartsWithin(db, d, from, to))),
        Total(|db.departures|, d => if DepartsWithin(db, d, from, to) then Spots(db, d) else 0),
        bookings,
        PeriodTotal(db, from, to, Travelers),
        revenue,
        MeanCents(revenue, bookings)))
  }

  // --- the monthly plan ---

  /** Departures the plan shows: live, active, on a live and active tour, in the year. */
  predicate Planned(db: Db, d: nat, from: int, to: int) {
    && DepartsWithin(db, d, from, to)
    && db.departures[d].active && !db.departures[d].deleted
    && db.departures[d].tour < |db.tours|
    && db.tours[db.departures[d].tour].active && !db.tours[db.departures[d].tour].deleted
  }

  /** The year and the calendar: from when to when it lasts, and the month an instant falls in. */
  datatype Year = Year(from: int, to: int, monthOf: int -> nat)

  predicate PlannedIn(db: Db, d: nat, year: Year, month: nat) {
    Planned(db, d, year.from, year.to) && year.monthOf(db.departures[d].start) == month
  }

  function PlannedBookings(db: Db, year: Year, month: nat, measure: Measure): nat -> nat {
    (d: nat) => if PlannedIn(db, d, year, month) then DepartureTotal(db, d, measure) else 0
  }

  function PlannedSpots(db: Db, year: Year, month: nat): nat -> nat {
    (d: nat) => if PlannedIn(db, d, year, month) then Spots(db, d) else 0
  }

  function PlannedReserved(db: Db, year: Year, month: nat): nat -> nat {
    (d: nat) => if PlannedIn(db, d, year, month) then ReservedSpots(db, d) else 0
  }

  function PlannedCount(db: Db, year: Year, month: nat): nat -> nat {
    (d: nat) => Count(PlannedIn(db, d, year, month))
  }

  /** The left join of a month's planned departures with the pre-aggregated bookings. */
  function MonthTotal(db: Db, year: Year, month: nat, measure: Measure): nat {
    Total(|db.departures|, PlannedBookings(db, year, month, measure))
  }

  datatype MonthRow = MonthRow(
    month: nat, departureCount: nat, capacity: nat, reservedSpots: nat,
    confirmedBookings: nat, travelers: nat, revenueCents: nat)

  function MonthRowOf(db: Db, year: Year, month: nat): MonthRow {
    MonthRow(
      month,
      Total(|db.departures|, PlannedCount(db, year, month)),
      Total(|db.departures|, PlannedSpots(db, year, month)),
      Total(|db.departures|, PlannedReserved(db, year, month)),
      MonthTotal(db, year, month, Bookings),
      MonthTotal(db, year, month, Travelers),
      MonthTotal(db, year, month, Revenue))
  }

  /** Months with a planned departure, in order. */
  function MonthsUpTo(db: Db, year: Year, month: nat): seq<MonthRow> {
    if month == 0 then []
    else
      var row := MonthRowOf(db, year, month);
      if row.departureCount > 0 then MonthsUpTo(db, year, month - 1) + [row] else MonthsUpTo(db, year, month - 1)
  }

  function MonthlyPlan(db: Db, year: Year): seq<MonthRow> {
    MonthsUpTo(db, year, 12)
  }

  function RowAmount(row: MonthRow, measure: Measure): nat {
    match measure
    case Bookings => row.confirmedBookings
    case Travelers => row.travelers
    case Revenue => row.revenueCents
  }

  function PlanTotal(rows: seq<MonthRow>, measure: Measure): nat {
    if |rows| == 0 then 0 else PlanTotal(rows[..|rows| - 1], measure) + RowAmount(rows[|rows| - 1], measure)
  }

  // --- each confirmed booking counts once ---

  predicate BookedInMonth(db: Db, b: nat, year: Year, month: nat) {
    b < |db.bookings| && PlannedIn(db, db.bookings[b].departure, year, month)
  }

  /** The join, cell by cell: what a departure and a booking contribute together. */
  function Join(db: Db, year: Year, month: nat, measure: Measure): (nat, nat) -> nat {
    (d: nat, b: nat) => if PlannedIn(db, d, year, month) then Share(db, b, BookedOn(db, b, d), measure) else 0
  }

  lemma JoinRow(db: Db, year: Year, month: nat, measure: Measure, d: nat)
    ensures Total(|db.bookings|, RowOf(Join(db, year, month, measure), d))
         == PlannedBookings(db, year, month, measure)(d)
  {
    var row := RowOf(Join(db, year, month, measure), d);
    if PlannedIn(db, d, year, month) {
      TotalEqual(|db.bookings|, row, b => Share(db, b, BookedOn(db, b, d), measure));
    } else {
      TotalZero(|db.bookings|, row);
    }
  }

  lemma JoinColumn(db: Db, year: Year, month: nat, measure: Measure, b: nat)
    requires b < |db.bookings| && db.bookings[b].departure < |db.departures|
    ensures Total(|db.departures|, ColumnOf(Join(db, year, month, measure), b))
         == MonthShares(db, year, month, measure)(b)
  {
    TotalSingle(|db.departures|, ColumnOf(Join(db, year, month, measure), b), db.bookings[b].departure);
  }

  ghost predicate BookingsPlaced(db: Db) {
    forall b :: 0 <= b < |db.bookings| ==> db.bookings[b].departure < |db.departures|
  }

  function MonthShares(db: Db, year: Year, month: nat, measure: Measure): nat -> nat {
    (b: nat) => Share(db, b, BookedInMonth(db, b, year, month), measure)
  }

  /** Confirmed bookings whose departure the plan shows in the month, each counted once. */
  function BookedTotal(db: Db, year: Year, month: nat, measure: Measure): nat {
    Total(|db.bookings|, MonthShares(db, year, month, measure))
  }

  /** The pre-aggregated join counts every confirmed booking of a planned departure exactly once. */
  lemma MonthCountsOnce(db: Db, year: Year, month: nat, measure: Measure)
    requires BookingsPlaced(db)
    ensures MonthTotal(db, year, month, measure) == BookedTotal(db, year, month, measure)
  {
    var n, m, join := |db.departures|, |db.bookings|, Join(db, year, month, measure);
    TotalSwaps(n, m, join);
    forall d | 0 <= d < n ensures RowSums(m, join)(d) == PlannedBookings(db, year, month, measure)(d) {
      JoinRow(db, year, month, measure, d);
    }
    TotalEqual(n, RowSums(m, join), PlannedBookings(db, year, month, measure));
    forall b | 0 <= b < m ensures ColumnSums(n, join)(b) == MonthShares(db, year, month, measure)(b) {
      JoinColumn(db, year, month, measure, b);
    }
    TotalEqual(m, ColumnSums(n, join), MonthShares(db, year, month, measure));
  }
}
