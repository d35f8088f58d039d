/** Tours ranked by the revenue of their confirmed bookings in a period. */
module Rankings {
  import opened Rows
  import opened Invariant
  import opened Machine
  import opened Safety
  import opened Analytics
  import opened AnalyticsFacts

  datatype RankRow = RankRow(
    tour: nat, confirmedBookings: nat, travelers: nat, revenueCents: nat, rating: Option<nat>)

  predicate BookedFor(db: Db, b: nat, t: nat, from: int, to: int) {
    BookedWithin(db, b, from, to) && db.bookings[b].tour == t
  }

  function TourShares(db: Db, t: nat, from: int, to: int, measure: Measure): nat -> nat {
    (b: nat) => Share(db, b, BookedFor(db, b, t, from, to), measure)
  }

  /** One group of the ranking: the confirmed bookings of the tour in the period. */
  function TourTotal(db: Db, from: int, to: int, measure: Measure): nat -> nat {
    (t: nat) => Total(|db.bookings|, TourShares(db, t, from, to, measure))
  }

  function RankRowOf(db: Db, t: nat, from: int, to: int): RankRow {
    RankRow(t, TourTotal(db, from, to, Bookings)(t), TourTotal(db, from, to, Travelers)(t),
            TourTotal(db, from, to, Revenue)(t), if t < |db.tours| then db.tours[t].ratingAverage else None)
  }

  /** Tours with a confirmed booking in the period. */
  function Groups(db: Db, from: int, to: int, n: nat): seq<RankRow> {
    if n == 0 then []
    else
      var row := RankRowOf(db, n - 1, from, to);
      if row.confirmedBookings > 0 then Groups(db, from, to, n - 1) + [row] else Groups(db, from, to, n - 1)
  }

  predicate RatedHigher(x: Option<nat>, y: Option<nat>) {
    x.Some? && (y.None? || x.value > y.value)
  }

  /** More revenue, then more travelers, then the better rating with unrated tours last, then the identifier. */
  predicate Before(x: RankRow, y: RankRow) {
    if x.revenueCents != y.revenueCents then x.revenueCents > y.revenueCents
    else if x.travelers != y.travelers then x.travelers > y.travelers
    else if x.rating != y.rating then RatedHigher(x.rating, y.rating)
    else x.tour < y.tour
  }

  function Insert(row: RankRow, rows: seq<RankRow>): seq<RankRow> {
    if |rows| == 0 || Before(row, rows[0]) then [row] + rows else [rows[0]] + Insert(row, rows[1..])
  }

  function Ordered(rows: seq<RankRow>): seq<RankRow> {
    if |rows| == 0 then [] else Insert(rows[0], Ordered(rows[1..]))
  }

  function AllRankings(db: Db, from: int, to: int): seq<RankRow> {
    Ordered(Groups(db, from, to, |db.tours|))
  }

  function RankingsOf(db: Db, from: int, to: int, limit: nat): Option<seq<RankRow>> {
    if !RangeOk(from, to) then None
    else
      var rows := AllRankings(db, from, to);
      Some(if limit < |rows| then rows[..limit] else rows)
  }

  // --- the order ---

  lemma BeforeTransitive(x: RankRow, y: RankRow, z: RankRow)
    requires Before(x, y) && Before(y, z)
    ensures Before(x, z)
  {
  }

  lemma BeforeTotal(x: RankRow, y: RankRow)
    requires x.tour != y.tour
    ensures Before(x, y) <==> !Before(y, x)
  {
  }

  ghost predicate Descending(rows: seq<RankRow>) {
    forall i, j :: 0 <= i < j < |rows| ==> Before(rows[i], rows[j])
  }

  ghost predicate ToursDiffer(rows: seq<RankRow>) {
    forall i, j :: 0 <= i < j < |rows| ==> rows[i].tour != rows[j].tour
  }

  lemma {:induction false} InsertHas(row: RankRow, rows: seq<RankRow>, x: RankRow)
    ensures x in Insert(row, rows) <==> x == row || x in rows
  {
    if |rows| > 0 && !Before(row, rows[0]) {
      InsertHas(row, rows[1..], x);
      assert rows == [rows[0]] + rows[1..];
    }
  }

  lemma PrependKeepsOrder(first: RankRow, rows: seq<RankRow>)
    requires Descending(rows) && forall x :: x in rows ==> Before(first, x)
    ensures Descending([first] + rows)
  {
  }

  lemma {:induction false} InsertKeepsOrder(row: RankRow, rows: seq<RankRow>)
    requires Descending(rows) && forall x :: x in rows ==> x.tour != row.tour
    ensures Descending(Insert(row, rows))
  {
    if |rows| == 0 || Before(row, rows[0]) {
      forall x | x in rows ensures Before(row, x) {
        var i :| 0 <= i < |rows| && rows[i] == x;
        if i > 0 {
          BeforeTransitive(row, rows[0], x);
        }
      }
      PrependKeepsOrder(row, rows);
    } else {
      InsertKeepsOrder(row, rows[1..]);
      BeforeTotal(row, rows[0]);
      forall x | x in Insert(row, rows[1..]) ensures Before(rows[0], x) {
        InsertHas(row, rows[1..], x);
      }
      PrependKeepsOrder(rows[0], Insert(row, rows[1..]));
    }
  }

  lemma {:induction false} OrderedHas(rows: seq<RankRow>, x: RankRow)
    ensures x in Ordered(rows) <==> x in rows
  {
    if |rows| > 0 {
      OrderedHas(rows[1..], x);
      InsertHas(rows[0], Ordered(rows[1..]), x);
      assert rows == [rows[0]] + rows[1..];
    }
  }

  lemma {:induction false} OrderedDescends(rows: seq<RankRow>)
    requires ToursDiffer(rows)
    ensures Descending(Ordered(rows))
  {
    if |rows| > 0 {
      OrderedDescends(rows[1..]);
      forall x | x in Ordered(rows[1..]) ensures x.tour != rows[0].tour {
        OrderedHas(rows[1..], x);
        var i :| 0 <= i < |rows| - 1 && rows[1..][i] == x;
        assert rows[i + 1] == x;
      }
      hide Ordered, Descending, ToursDiffer;
      OrderedStep(rows);
      InsertKeepsOrder(rows[0], Ordered(rows[1..]));
    }
  }

  lemma OrderedStep(rows: seq<RankRow>)
    requires |rows| > 0
    ensures Ordered(rows) == Insert(rows[0], Ordered(rows[1..]))
  {
  }

  lemma {:induction false} GroupsHave(db: Db, from: int, to: int, n: nat, x: RankRow)
    ensures x in Groups(db, from, to, n)
       <==> x.tour < n && x == RankRowOf(db, x.tour, from, to) && x.confirmedBookings > 0
  {
    hide RankRowOf;
    if n > 0 {
      GroupsHave(db, from, to, n - 1, x);
      assert RankRowOf(db, n - 1, from, to).tour == n - 1 by { RowNamesTour(db, n - 1, from, to); }
    }
  }

  lemma RowNamesTour(db: Db, t: nat, from: int, to: int)
    ensures RankRowOf(db, t, from, to).tour == t
  {
  }

  lemma {:induction false} GroupsDiffer(db: Db, from: int, to: int, n: nat)
    ensures ToursDiffer(Groups(db, from, to, n))
  {
    hide RankRowOf, ToursDiffer;
    if n > 0 {
      var front := Groups(db, from, to, n - 1);
      GroupsDiffer(db, from, to, n - 1);
      RowNamesTour(db, n - 1, from, to);
      forall i | 0 <= i < |front| ensures front[i].tour != n - 1 {
        GroupsHave(db, from, to, n - 1, front[i]);
      }
      AppendDiffers(front, RankRowOf(db, n - 1, from, to));
    } else {
      NothingDiffers();
    }
  }

  lemma NothingDiffers()
    ensures ToursDiffer([])
  {
  }

  lemma AppendDiffers(rows: seq<RankRow>, row: RankRow)
    requires ToursDiffer(rows) && forall i :: 0 <= i < |rows| ==> rows[i].tour != row.tour
    ensures ToursDiffer(rows + [row])
  {
  }

  /** The ranking lists exactly the tours with a confirmed booking in the period, each once, in strictly
      descending order; a limit shows the top of it. */
  lemma RankingIsRight(db: Db, from: int, to: int, x: RankRow)
    ensures Descending(AllRankings(db, from, to))
    ensures x in AllRankings(db, from, to)
       <==> x.tour < |db.tours| && x == RankRowOf(db, x.tour, from, to) && x.confirmedBookings > 0
  {
    GroupsDiffer(db, from, to, |db.tours|);
    OrderedDescends(Groups(db, from, to, |db.tours|));
    OrderedHas(Groups(db, from, to, |db.tours|), x);
    hide RankRowOf;
    GroupsHave(db, from, to, |db.tours|, x);
  }

  /** Whoever a limit leaves out ranks behind everyone it shows. */
  lemma LimitShowsTheTop(db: Db, from: int, to: int, limit: nat, i: nat, j: nat)
    requires RangeOk(from, to) && limit <= j < |AllRankings(db, from, to)|
    requires i < |RankingsOf(db, from, to, limit).value|
    ensures |RankingsOf(db, from, to, limit).value| == limit
    ensures Before(RankingsOf(db, from, to, limit).value[i], AllRankings(db, from, to)[j])
  {
    RankingIsRight(db, from, to, AllRankings(db, from, to)[j]);
  }

  // --- totals ---

  function RankAmount(row: RankRow, measure: Measure): nat {
    match measure
    case Bookings => row.confirmedBookings
    case Travelers => row.travelers
    case Revenue => row.revenueCents
  }

  function RankTotal(rows: seq<RankRow>, measure: Measure): nat {
    if |rows| == 0 then 0 else RankAmount(rows[0], measure) + RankTotal(rows[1..], measure)
  }

  lemma {:induction false} InsertTotal(row: RankRow, rows: seq<RankRow>, measure: Measure)
    ensures RankTotal(Insert(row, rows), measure) == RankAmount(row, measure) + RankTotal(rows, measure)
  {
    if |rows| == 0 || Before(row, rows[0]) {
      assert ([row] + rows)[1..] == rows;
    } else {
      InsertTotal(row, rows[1..], measure);
      assert ([rows[0]] + Insert(row, rows[1..]))[1..] == Insert(row, rows[1..]);
    }
  }

  lemma {:induction false} OrderedTotal(rows: seq<RankRow>, measure: Measure)
    ensures RankTotal(Ordered(rows), measure) == RankTotal(rows, measure)
  {
    if |rows| > 0 {
      OrderedTotal(rows[1..], measure);
      InsertTotal(rows[0], Ordered(rows[1..]), measure);
    }
  }

  lemma {:induction false} AppendTotal(rows: seq<RankRow>, row: RankRow, measure: Measure)
    ensures RankTotal(rows + [row], measure) == RankTotal(rows, measure) + RankAmount(row, measure)
  {
    if |rows| == 0 {
      assert rows + [row] == [row] && [row][1..] == [];
    } else {
      AppendTotal(rows[1..], row, measure);
      assert (rows + [row])[1..] == rows[1..] + [row];
    }
  }

  /** A tour without confirmed bookings in the period has nothing to add. */
  lemma NothingWithoutBookings(db: Db, t: nat, from: int, to: int, measure: Measure)
    requires TourTotal(db, from, to, Bookings)(t) == 0
    ensures TourTotal(db, from, to, measure)(t) == 0
  {
    var n := |db.bookings|;
    forall b | 0 <= b < n ensures TourShares(db, t, from, to, measure)(b) == 0 {
      TotalCovers(n, TourShares(db, t, from, to, Bookings), b);
    }
    TotalZero(n, TourShares(db, t, from, to, measure));
  }

  lemma RowReports(db: Db, t: nat, from: int, to: int, measure: Measure)
    ensures RankAmount(RankRowOf(db, t, from, to), measure) == TourTotal(db, from, to, measure)(t)
    ensures RankRowOf(db, t, from, to).confirmedBookings == TourTotal(db, from, to, Bookings)(t)
  {
  }

  lemma GroupsAdd(db: Db, from: int, to: int, n: nat, measure: Measure)
    requires n > 0
    ensures RankTotal(Groups(db, from, to, n), measure)
         == RankTotal(Groups(db, from, to, n - 1), measure) + TourTotal(db, from, to, measure)(n - 1)
  {
    hide TourTotal, RankRowOf, RankAmount, RankTotal;
    var row, front := RankRowOf(db, n - 1, from, to), Groups(db, from, to, n - 1);
    RowReports(db, n - 1, from, to, measure);
    if row.confirmedBookings > 0 {
      AppendTotal(front, row, measure);
    } else {
      NothingWithoutBookings(db, n - 1, from, to, measure);
    }
  }

  lemma {:induction false} GroupsTotal(db: Db, from: int, to: int, n: nat, measure: Measure)
    ensures RankTotal(Groups(db, from, to, n), measure) == Total(n, TourTotal(db, from, to, measure))
  {
    if n > 0 {
      hide TourTotal, Groups, RankTotal;
      GroupsTotal(db, from, to, n - 1, measure);
      GroupsAdd(db, from, to, n, measure);
    }
  }

  /** What a booking contributes to each tour. */
  function TourCells(db: Db, from: int, to: int, measure: Measure): (nat, nat) -> nat {
    (t: nat, b: nat) => Share(db, b, BookedFor(db, b, t, from, to), measure)
  }

  function PeriodShares(db: Db, from: int, to: int, measure: Measure): nat -> nat {
    (b: nat) => Share(db, b, BookedWithin(db, b, from, to), measure)
  }

  lemma BookingTours(db: Db, from: int, to: int, measure: Measure, b: nat)
    requires b < |db.bookings| && db.bookings[b].tour < |db.tours|
    ensures Total(|db.tours|, ColumnOf(TourCells(db, from, to, measure), b))
         == PeriodShares(db, from, to, measure)(b)
  {
    TotalSingle(|db.tours|, ColumnOf(TourCells(db, from, to, measure), b), db.bookings[b].tour);
  }

  lemma ToursCover(db: Db, from: int, to: int, measure: Measure)
    requires forall b :: 0 <= b < |db.bookings| ==> db.bookings[b].tour < |db.tours|
    ensures Total(|db.tours|, TourTotal(db, from, to, measure)) == PeriodTotal(db, from, to, measure)
  {
    var n, m, cells := |db.tours|, |db.bookings|, TourCells(db, from, to, measure);
    TotalSwaps(n, m, cells);
    forall t | 0 <= t < n ensures RowSums(m, cells)(t) == TourTotal(db, from, to, measure)(t) {
      TotalEqual(m, RowOf(cells, t), TourShares(db, t, from, to, measure));
    }
    TotalEqual(n, RowSums(m, cells), TourTotal(db, from, to, measure));
    forall b | 0 <= b < m ensures ColumnSums(n, cells)(b) == PeriodShares(db, from, to, measure)(b) {
      BookingTours(db, from, to, measure, b);
    }
    TotalEqual(m, ColumnSums(n, cells), PeriodShares(db, from, to, measure));
    TotalEqual(m, PeriodShares(db, from, to, measure),
               b => Share(db, b, BookedWithin(db, b, from, to), measure));
  }

  /** On every run the full ranking and the statistics of the same period add up to the same totals. */
  lemma RankingsSumToStatistics(config: Config, now: int, steps: seq<Step>, from: int, to: int, measure: Measure)
    ensures var db := Reached(config, now, steps).db;
      RankTotal(AllRankings(db, from, to), measure) == PeriodTotal(db, from, to, measure)
  {
    ReachedInv(config, now, steps);
    var db := Reached(config, now, steps).db;
    RowsArePlaced(db);
    hide RowsOk, Inv, Reached, TourTotal, PeriodTotal, Groups, Ordered;
    OrderedTotal(Groups(db, from, to, |db.tours|), measure);
    GroupsTotal(db, from, to, |db.tours|, measure);
    ToursCover(db, from, to, measure);
  }
}
