/** Revenue reports: the branch totals fold of getBranchRevenue and the per-movie
    grouping and ranking of getMovieRevenue. The report rows are what the
    report views return for the period; `None` stands for a query that threw. */
module RevenueController {
  import opened Common

  const DatesRequired := Failure(400, "Start date and end date are required")
  const BranchQueryFailed := Failure(500, "Failed to fetch revenue data")
  const MovieQueryFailed := Failure(500, "Failed to fetch movie revenue data")

  // ---------------------------------------------------------------- branch totals

  /** A row of the daily branch revenue view; a NULL column is None. */
  datatype BranchRow = BranchRow(totalRevenue: Option<int>, ticketsSold: Option<int>, bookings: Option<int>, netRevenue: Option<int>)

  datatype Totals = Totals(totalRevenue: int, ticketsSold: int, bookings: int, netRevenue: int)

  datatype Column = Revenue | TicketsSold | Bookings | NetRevenue

  /** `x || 0`: a missing value counts as 0. */
  function OrZero(x: Option<int>): int
  {
    if x.Some? then x.value else 0
  }

  function Cell(row: BranchRow, c: Column): int
  {
    match c
    case Revenue => OrZero(row.totalRevenue)
    case TicketsSold => OrZero(row.ticketsSold)
    case Bookings => OrZero(row.bookings)
    case NetRevenue => OrZero(row.netRevenue)
  }

  function Get(t: Totals, c: Column): int
  {
    match c
    case Revenue => t.totalRevenue
    case TicketsSold => t.ticketsSold
    case Bookings => t.bookings
    case NetRevenue => t.netRevenue
  }

  const NoTotals := Totals(0, 0, 0, 0)

  /** The reducer: one row added to the accumulator. */
  function AddRow(acc: Totals, row: BranchRow): (r: Totals)
    ensures forall c :: Get(r, c) == Get(acc, c) + Cell(row, c)
  {
    Totals(acc.totalRevenue + OrZero(row.totalRevenue), acc.ticketsSold + OrZero(row.ticketsSold),
           acc.bookings + OrZero(row.bookings), acc.netRevenue + OrZero(row.netRevenue))
  }

  /** `rows.reduce(AddRow, acc)`, left to right. */
  function FoldTotals(acc: Totals, rows: seq<BranchRow>): Totals
    decreases |rows|
  {
    if rows == [] then acc else FoldTotals(AddRow(acc, rows[0]), rows[1..])
  }

  /** The reference sum of one column. */
  function ColumnSum(rows: seq<BranchRow>, c: Column): int
  {
    if rows == [] then 0 else ColumnSum(rows[..|rows| - 1], c) + Cell(rows[|rows| - 1], c)
  }

  lemma ColumnSumFirst(rows: seq<BranchRow>, c: Column)
    requires rows != []
    ensures ColumnSum(rows, c) == Cell(rows[0], c) + ColumnSum(rows[1..], c)
    decreases |rows|
  {
    if |rows| > 1 {
      assert rows[1..][..|rows[1..]| - 1] == rows[..|rows| - 1][1..];
      ColumnSumFirst(rows[..|rows| - 1], c);
    }
  }

  /** The fold adds each column's sum to the accumulator. */
  lemma {:induction false} FoldTotalsSums(acc: Totals, rows: seq<BranchRow>, c: Column)
    ensures Get(FoldTotals(acc, rows), c) == Get(acc, c) + ColumnSum(rows, c)
    decreases |rows|
  {
    if rows != [] {
      FoldTotalsSums(AddRow(acc, rows[0]), rows[1..], c);
      ColumnSumFirst(rows, c);
    }
  }

  /** getBranchRevenue: both dates are required; the summary is the fold from zero. */
  function BranchRevenue(startDate: Option<string>, endDate: Option<string>, rows: Option<seq<BranchRow>>): Result<Totals>
  {
    if !Present(startDate) || !Present(endDate) then Err(DatesRequired)
    else if rows.None? then Err(BranchQueryFailed)
    else Ok(FoldTotals(NoTotals, rows.value))
  }

  /** Missing dates 400, a failed query 500; no rows give all zeros. */
  lemma BranchRevenueOutcomes(startDate: Option<string>, endDate: Option<string>, rows: Option<seq<BranchRow>>)
    ensures var r := BranchRevenue(startDate, endDate, rows);
      && (!Present(startDate) || !Present(endDate) ==> r == Err(DatesRequired))
      && (Present(startDate) && Present(endDate) && rows.None? ==> r == Err(BranchQueryFailed))
      && (Present(startDate) && Present(endDate) && rows.Some? ==> r.Ok?)
      && (Present(startDate) && Present(endDate) && rows == Some([]) ==> r == Ok(NoTotals))
  {
  }

  /** Each summary total is the sum of that column over the rows, a NULL counting as 0. */
  lemma BranchRevenueTotals(startDate: Option<string>, endDate: Option<string>, rows: Option<seq<BranchRow>>, c: Column)
    requires BranchRevenue(startDate, endDate, rows).Ok?
    ensures Get(BranchRevenue(startDate, endDate, rows).value, c) == ColumnSum(rows.value, c)
  {
    FoldTotalsSums(NoTotals, rows.value, c);
  }

  /** The report over the rows of two periods is the sum of the two reports. */
  lemma BranchTotalsAdditive(a: seq<BranchRow>, b: seq<BranchRow>, c: Column)
    ensures Get(FoldTotals(NoTotals, a + b), c) == Get(FoldTotals(NoTotals, a), c) + Get(FoldTotals(NoTotals, b), c)
  {
    FoldTotalsSums(NoTotals, a + b, c);
    FoldTotalsSums(NoTotals, a, c);
    FoldTotalsSums(NoTotals, b, c);
    ColumnSumAppend(a, b, c);
  }

  lemma {:induction false} ColumnSumAppend(a: seq<BranchRow>, b: seq<BranchRow>, c: Column)
    ensures ColumnSum(a + b, c) == ColumnSum(a, c) + ColumnSum(b, c)
    decreases |b|
  {
    if b != [] {
      assert (a + b)[..|a + b| - 1] == a + b[..|b| - 1];
      ColumnSumAppend(a, b[..|b| - 1], c);
    } else {
      assert a + b == a;
    }
  }

  // ---------------------------------------------------------------- movie totals

  /** A row of the daily movie revenue view joined with the movie's title. */
  datatype MovieRow = MovieRow(movieId: string, title: string, totalRevenue: int, ticketsSold: int, showtimes: int)

  datatype MovieTotal = MovieTotal(movieId: string, title: string, totalRevenue: int, ticketsSold: int, showtimes: int)

  /** The forEach body: create the entry on first sight of the movie, then add the row. */
  function AddMovieRow(totals: map<string, MovieTotal>, row: MovieRow): map<string, MovieTotal>
  {
    var base := if row.movieId in totals then totals[row.movieId] else MovieTotal(row.movieId, row.title, 0, 0, 0);
    totals[row.movieId := base.(totalRevenue := base.totalRevenue + row.totalRevenue,
                                ticketsSold := base.ticketsSold + row.ticketsSold,
                                showtimes := base.showtimes + row.showtimes)]
  }

  /** The dictionary after the forEach over `rows`. */
  function Group(rows: seq<MovieRow>): map<string, MovieTotal>
  {
    if rows == [] then map[] else AddMovieRow(Group(rows[..|rows| - 1]), rows[|rows| - 1])
  }

  /** The dictionary's keys in the order they were first added. */
  function FirstSeen(rows: seq<MovieRow>): seq<string>
  {
    if rows == [] then []
    else
      var prefix := FirstSeen(rows[..|rows| - 1]);
      if rows[|rows| - 1].movieId in prefix then prefix else prefix + [rows[|rows| - 1].movieId]
  }

  /** The rows of one movie, in order. */
  function RowsOf(rows: seq<MovieRow>, m: string): (r: seq<MovieRow>)
    ensures forall i :: 0 <= i < |r| ==> r[i].movieId == m
  {
    if rows == [] then []
    else if rows[|rows| - 1].movieId == m then RowsOf(rows[..|rows| - 1], m) + [rows[|rows| - 1]]
    else RowsOf(rows[..|rows| - 1], m)
  }

  function RevenueSum(rows: seq<MovieRow>): int
  {
    if rows == [] then 0 else RevenueSum(rows[..|rows| - 1]) + rows[|rows| - 1].totalRevenue
  }

  function TicketsSum(rows: seq<MovieRow>): int
  {
    if rows == [] then 0 else TicketsSum(rows[..|rows| - 1]) + rows[|rows| - 1].ticketsSold
  }

  function ShowtimesSum(rows: seq<MovieRow>): int
  {
    if rows == [] then 0 else ShowtimesSum(rows[..|rows| - 1]) + rows[|rows| - 1].showtimes
  }

  predicate Distinct<T(==)>(s: seq<T>)
  {
    forall i, j :: 0 <= i < j < |s| ==> s[i] != s[j]
  }

  /** A sequence without repeats has as many elements as its set. */
  lemma {:induction false} DistinctCard<T>(s: seq<T>)
    requires Distinct(s)
    ensures |set x | x in s| == |s|
  {
    if s != [] {
      var p := s[..|s| - 1];
      assert Distinct(p);
      DistinctCard(p);
      assert (set x | x in s) == (set x | x in p) + {s[|s| - 1]};
      assert s[|s| - 1] !in p;
    }
  }

  /** The keys noted while filling the dictionary are its keys, each once. */
  lemma {:induction false} FirstSeenKeys(rows: seq<MovieRow>)
    ensures Distinct(FirstSeen(rows))
    ensures forall m :: m in FirstSeen(rows) <==> m in Group(rows)
  {
    if rows != [] {
      FirstSeenKeys(rows[..|rows| - 1]);
    }
  }

  /** The dictionary holds one entry per movie of the rows, keyed by its movie id,
      and lists each of them once, in first-seen order. */
  lemma {:induction false} GroupKeys(rows: seq<MovieRow>)
    ensures Group(rows).Keys == set r | r in rows :: r.movieId
    ensures forall m :: m in Group(rows) ==> Group(rows)[m].movieId == m
    ensures Distinct(FirstSeen(rows))
    ensures forall m :: m in FirstSeen(rows) <==> m in Group(rows)
  {
    FirstSeenKeys(rows);
    if rows != [] {
      var p := rows[..|rows| - 1];
      GroupKeys(p);
      assert rows == p + [rows[|rows| - 1]];
      assert (set r | r in rows :: r.movieId) == (set r | r in p :: r.movieId) + {rows[|rows| - 1].movieId};
    }
  }

  /** Each movie's entry carries the title of its first row and the sums of its
      rows' revenue, tickets and showtimes. */
  lemma {:induction false} GroupSums(rows: seq<MovieRow>, m: string)
    requires m in Group(rows)
    ensures RowsOf(rows, m) != []
    ensures Group(rows)[m].title == RowsOf(rows, m)[0].title
    ensures Group(rows)[m].totalRevenue == RevenueSum(RowsOf(rows, m))
    ensures Group(rows)[m].ticketsSold == TicketsSum(RowsOf(rows, m))
    ensures Group(rows)[m].showtimes == ShowtimesSum(RowsOf(rows, m))
  {
    var p := rows[..|rows| - 1];
    var last := rows[|rows| - 1];
    if last.movieId == m {
      assert RowsOf(rows, m) == RowsOf(p, m) + [last];
      if m in Group(p) {
        GroupSums(p, m);
      } else {
        RowsOfAbsent(p, m);
      }
    } else {
      GroupSums(p, m);
    }
  }

  /** A movie with no entry has no rows. */
  lemma {:induction false} RowsOfAbsent(rows: seq<MovieRow>, m: string)
    requires m !in Group(rows)
    ensures RowsOf(rows, m) == []
  {
    if rows != [] {
      RowsOfAbsent(rows[..|rows| - 1], m);
    }
  }

  /** The dictionary's values, listed in the order of `order`. */
  function Entries(totals: map<string, MovieTotal>, order: seq<string>): (r: seq<MovieTotal>)
    requires forall m :: m in order ==> m in totals
    ensures |r| == |order|
    ensures forall i :: 0 <= i < |order| ==> r[i] == totals[order[i]]
  {
    seq(|order|, i requires 0 <= i < |order| => totals[order[i]])
  }

  /** Highest revenue first. */
  predicate SortedByRevenue(s: seq<MovieTotal>)
  {
    forall i, j :: 0 <= i < j < |s| ==> s[i].totalRevenue >= s[j].totalRevenue
  }

  function InsertByRevenue(x: MovieTotal, s: seq<MovieTotal>): seq<MovieTotal>
  {
    if s == [] then [x]
    else if x.totalRevenue >= s[0].totalRevenue then [x] + s
    else [s[0]] + InsertByRevenue(x, s[1..])
  }

  /** The descending sort by total revenue, modelled as an insertion sort; only
      its order and its contents are stated, not where equal revenues land. */
  function SortByRevenue(s: seq<MovieTotal>): seq<MovieTotal>
  {
    if s == [] then [] else InsertByRevenue(s[0], SortByRevenue(s[1..]))
  }

  lemma {:induction false} InsertPermutes(x: MovieTotal, s: seq<MovieTotal>)
    ensures multiset(InsertByRevenue(x, s)) == multiset(s) + multiset{x}
  {
    if s != [] && x.totalRevenue < s[0].totalRevenue {
      assert s == [s[0]] + s[1..];
      InsertPermutes(x, s[1..]);
    }
  }

  /** The inserted sequence holds `x` and the elements of `s`, nothing else. */
  lemma {:induction false} InsertMembers(x: MovieTotal, s: seq<MovieTotal>)
    ensures forall y :: y in InsertByRevenue(x, s) <==> y == x || y in s
  {
    if s != [] && x.totalRevenue < s[0].totalRevenue {
      InsertMembers(x, s[1..]);
      assert s == [s[0]] + s[1..];
    }
  }

  lemma ConsSorted(h: MovieTotal, t: seq<MovieTotal>)
    requires SortedByRevenue(t)
    requires forall y :: y in t ==> h.totalRevenue >= y.totalRevenue
    ensures SortedByRevenue([h] + t)
  {
    var r := [h] + t;
    forall i, j | 0 <= i < j < |r|
      ensures r[i].totalRevenue >= r[j].totalRevenue
    {
      if i == 0 {
        assert r[j] == t[j - 1];
      } else {
        assert r[i] == t[i - 1] && r[j] == t[j - 1];
      }
    }
  }

  lemma {:induction false} InsertSorted(x: MovieTotal, s: seq<MovieTotal>)
    requires SortedByRevenue(s)
    ensures SortedByRevenue(InsertByRevenue(x, s))
  {
    if s == [] {
    } else if x.totalRevenue >= s[0].totalRevenue {
      assert forall y :: y in s ==> s[0].totalRevenue >= y.totalRevenue by {
        forall y | y in s
          ensures s[0].totalRevenue >= y.totalRevenue
        {
          var k :| 0 <= k < |s| && s[k] == y;
          assert k == 0 || s[0].totalRevenue >= s[k].totalRevenue;
        }
      }
      ConsSorted(x, s);
    } else {
      var t := s[1..];
      assert SortedByRevenue(t) by {
        forall i, j | 0 <= i < j < |t|
          ensures t[i].totalRevenue >= t[j].totalRevenue
        {
          assert t[i] == s[i + 1] && t[j] == s[j + 1];
        }
      }
      InsertSorted(x, t);
      InsertMembers(x, t);
      assert forall y :: y in t ==> s[0].totalRevenue >= y.totalRevenue by {
        forall y | y in t
          ensures s[0].totalRevenue >= y.totalRevenue
        {
          var k :| 0 <= k < |t| && t[k] == y;
          assert t[k] == s[k + 1];
        }
      }
      ConsSorted(s[0], InsertByRevenue(x, t));
    }
  }

  /** The ranking is a permutation of its input, highest revenue first. */
  lemma {:induction false} SortByRevenueSorts(s: seq<MovieTotal>)
    ensures multiset(SortByRevenue(s)) == multiset(s)
    ensures SortedByRevenue(SortByRevenue(s))
  {
    if s != [] {
      assert s == [s[0]] + s[1..];
      SortByRevenueSorts(s[1..]);
      InsertPermutes(s[0], SortByRevenue(s[1..]));
      InsertSorted(s[0], SortByRevenue(s[1..]));
    }
  }

  /** getMovieRevenue's summary: the dictionary's values, ranked. */
  function MovieSummary(rows: seq<MovieRow>): seq<MovieTotal>
  {
    FirstSeenKeys(rows);
    SortByRevenue(Entries(Group(rows), FirstSeen(rows)))
  }

  /** The forEach: fills the dictionary row by row, noting each key as it is added. */
  method GroupByMovie(items: seq<MovieRow>) returns (totals: map<string, MovieTotal>, order: seq<string>)
    ensures totals == Group(items) && order == FirstSeen(items)
  {
    totals := map[];
    order := [];
    var i := 0;
    while i < |items|
      invariant 0 <= i <= |items|
      invariant totals == Group(items[..i])
      invariant order == FirstSeen(items[..i])
    {
      var item := items[i];
      ghost var prefix := items[..i];
      assert items[..i + 1] == prefix + [item];
      assert items[..i + 1][..i] == prefix;
      FirstSeenKeys(prefix);
      ghost var before := totals;
      if item.movieId !in totals {
        totals := totals[item.movieId := MovieTotal(item.movieId, item.title, 0, 0, 0)];
        order := order + [item.movieId];
      }
      var e := totals[item.movieId];
      assert e == if item.movieId in before then before[item.movieId] else MovieTotal(item.movieId, item.title, 0, 0, 0);
      var e' := e.(totalRevenue := e.totalRevenue + item.totalRevenue,
                   ticketsSold := e.ticketsSold + item.ticketsSold,
                   showtimes := e.showtimes + item.showtimes);
      totals := totals[item.movieId := e'];
      assert totals == before[item.movieId := e'];
      assert AddMovieRow(before, item) == before[item.movieId := e'];
      assert Group(items[..i + 1]) == AddMovieRow(Group(prefix), item);
      i := i + 1;
    }
    assert items[..i] == items;
  }

  /** getMovieRevenue: both dates are required; the summary is the grouped totals, ranked. */
  method MovieRevenue(startDate: Option<string>, endDate: Option<string>, rows: Option<seq<MovieRow>>)
    returns (r: Result<seq<MovieTotal>>)
    ensures !Present(startDate) || !Present(endDate) ==> r == Err(DatesRequired)
    ensures Present(startDate) && Present(endDate) && rows.None? ==> r == Err(MovieQueryFailed)
    ensures Present(startDate) && Present(endDate) && rows.Some? ==> r == Ok(MovieSummary(rows.value))
  {
    if !Present(startDate) || !Present(endDate) {
      return Err(DatesRequired);
    }
    if rows.None? {
      return Err(MovieQueryFailed);
    }
    var totals, order := GroupByMovie(rows.value);
    FirstSeenKeys(rows.value);
    r := Ok(SortByRevenue(Entries(totals, order)));
  }

  lemma ConsDistinct(h: MovieTotal, t: seq<MovieTotal>)
    requires Distinct(t) && h !in t
    ensures Distinct([h] + t)
  {
    var r := [h] + t;
    forall i, j | 0 <= i < j < |r|
      ensures r[i] != r[j]
    {
      if i == 0 {
        assert r[j] == t[j - 1];
      } else {
        assert r[i] == t[i - 1] && r[j] == t[j - 1];
      }
    }
  }

  lemma {:induction false} InsertKeepsDistinct(x: MovieTotal, s: seq<MovieTotal>)
    requires Distinct(s) && x !in s
    ensures Distinct(InsertByRevenue(x, s))
  {
    if s == [] {
    } else if x.totalRevenue >= s[0].totalRevenue {
      ConsDistinct(x, s);
    } else {
      var t := s[1..];
      assert s == [s[0]] + t;
      assert Distinct(t) by {
        forall i, j | 0 <= i < j < |t|
          ensures t[i] != t[j]
        {
          assert t[i] == s[i + 1] && t[j] == s[j + 1];
        }
      }
      assert s[0] !in t by {
        forall k | 0 <= k < |t|
          ensures t[k] != s[0]
        {
          assert t[k] == s[k + 1];
        }
      }
      InsertKeepsDistinct(x, t);
      InsertMembers(x, t);
      ConsDistinct(s[0], InsertByRevenue(x, t));
    }
  }

  /** Sorting neither adds nor merges entries. */
  lemma {:induction false} SortKeepsDistinct(s: seq<MovieTotal>)
    requires Distinct(s)
    ensures Distinct(SortByRevenue(s))
  {
    if s != [] {
      var t := s[1..];
      assert s == [s[0]] + t;
      assert Distinct(t) by {
        forall i, j | 0 <= i < j < |t|
          ensures t[i] != t[j]
        {
          assert t[i] == s[i + 1] && t[j] == s[j + 1];
        }
      }
      SortKeepsDistinct(t);
      SortByRevenueSorts(t);
      assert s[0] !in multiset(SortByRevenue(t)) by {
        assert s[0] !in t by {
          forall k | 0 <= k < |t|
            ensures t[k] != s[0]
          {
            assert t[k] == s[k + 1];
          }
        }
      }
      InsertKeepsDistinct(s[0], SortByRevenue(t));
    }
  }

  /** Every summary entry is the dictionary's entry for its own movie. */
  lemma SummaryEntriesFromGroup(rows: seq<MovieRow>)
    ensures forall e :: e in MovieSummary(rows) ==> e.movieId in Group(rows) && e == Group(rows)[e.movieId]
  {
    GroupKeys(rows);
    var entries := Entries(Group(rows), FirstSeen(rows));
    SortByRevenueSorts(entries);
    forall e | e in MovieSummary(rows)
      ensures e in entries
    {
      assert e in multiset(MovieSummary(rows));
    }
  }

  /** The dictionary's values, listed in first-seen order, are pairwise distinct. */
  lemma EntriesDistinct(rows: seq<MovieRow>)
    ensures forall m :: m in FirstSeen(rows) ==> m in Group(rows)
    ensures Distinct(Entries(Group(rows), FirstSeen(rows)))
  {
    GroupKeys(rows);
    var order := FirstSeen(rows);
    var entries := Entries(Group(rows), order);
    forall i, j | 0 <= i < j < |entries|
      ensures entries[i] != entries[j]
    {
      assert entries[i].movieId == order[i];
    }
  }

  /** The movie summary ranks by revenue, highest first, and no two of its
      entries are for the same movie. */
  lemma MovieSummaryRanked(rows: seq<MovieRow>)
    ensures SortedByRevenue(MovieSummary(rows))
    ensures forall i, j :: 0 <= i < j < |MovieSummary(rows)| ==> MovieSummary(rows)[i].movieId != MovieSummary(rows)[j].movieId
  {
    EntriesDistinct(rows);
    var summary := MovieSummary(rows);
    SortByRevenueSorts(Entries(Group(rows), FirstSeen(rows)));
    SortKeepsDistinct(Entries(Group(rows), FirstSeen(rows)));
    SummaryEntriesFromGroup(rows);
    forall i, j | 0 <= i < j < |summary|
      ensures summary[i].movieId != summary[j].movieId
    {
      assert summary[i] in summary && summary[j] in summary;
    }
  }

  /** The movie summary holds exactly one entry per distinct movie of the rows. */
  lemma MovieSummaryOnePerMovie(rows: seq<MovieRow>)
    ensures (set e | e in MovieSummary(rows) :: e.movieId) == (set r | r in rows :: r.movieId)
    ensures |MovieSummary(rows)| == |set r | r in rows :: r.movieId|
  {
    GroupKeys(rows);
    SummaryEntriesFromGroup(rows);
    var g := Group(rows);
    var order := FirstSeen(rows);
    var entries := Entries(g, order);
    var summary := MovieSummary(rows);
    SortByRevenueSorts(entries);
    assert |summary| == |entries| by {
      assert |multiset(summary)| == |multiset(entries)|;
    }
    assert (set m | m in order) == g.Keys;
    DistinctCard(order);
    forall m | m in g
      ensures m in (set e | e in summary :: e.movieId)
    {
      var k :| 0 <= k < |order| && order[k] == m;
      assert entries[k] in multiset(summary);
    }
  }

  /** Each movie's entry holds the sums of its rows' revenue, tickets and showtimes,
      and the title of its first row. */
  lemma MovieSummarySums(rows: seq<MovieRow>)
    ensures forall e :: e in MovieSummary(rows) ==>
      && RowsOf(rows, e.movieId) != []
      && e.title == RowsOf(rows, e.movieId)[0].title
      && e.totalRevenue == RevenueSum(RowsOf(rows, e.movieId))
      && e.ticketsSold == TicketsSum(RowsOf(rows, e.movieId))
      && e.showtimes == ShowtimesSum(RowsOf(rows, e.movieId))
  {
    SummaryEntriesFromGroup(rows);
    forall e | e in MovieSummary(rows)
      ensures RowsOf(rows, e.movieId) != [] && e.title == RowsOf(rows, e.movieId)[0].title
      ensures e.totalRevenue == RevenueSum(RowsOf(rows, e.movieId))
      ensures e.ticketsSold == TicketsSum(RowsOf(rows, e.movieId))
      ensures e.showtimes == ShowtimesSum(RowsOf(rows, e.movieId))
    {
      GroupSums(rows, e.movieId);
    }
  }
}
