/** The admin financial report: paid transactions in a window, grouped by
    day, Sunday-started week or month, with per-group revenue and count in
    the order the groups first appear. */
module Financial {
  import opened JsValues
  import opened Enums
  import opened Schema
  import opened Calendar
  import Aggregates

  // =====================================================================
  // The window and the query

  datatype Window = Window(start: int, end: int)

  /** The explicit range when both ends are given; otherwise the 30 days up
      to now. Timestamps are in milliseconds. */
  function ReportWindow(startDate: Option<int>, endDate: Option<int>, now: int): (w: Window)
    ensures startDate.Some? && endDate.Some? ==> w == Window(startDate.value, endDate.value)
    ensures !(startDate.Some? && endDate.Some?) ==> w.end == now && now - w.start == 30 * MsPerDay
  {
    if startDate.Some? && endDate.Some? then Window(startDate.value, endDate.value)
    else Window(DaysAgo(now, 30), now)
  }

  /** `status: 'paid', createdAt: { gte: start, lte: end }` */
  function PaidBetween(s: State, w: Window): set<Id> {
    set k | k in s.transactions && s.transactions[k].status == Paid
            && w.start <= s.transactions[k].createdAt <= w.end
  }

  /** `rows` is what `findMany` returns for the window: each paid
      transaction of the window once, oldest first. */
  ghost predicate QueryResult(s: State, w: Window, ids: seq<Id>, rows: seq<Transaction>) {
    && |ids| == |rows|
    && (forall i, j :: 0 <= i < j < |ids| ==> ids[i] != ids[j])
    && (forall k :: k in ids <==> k in PaidBetween(s, w))
    && (forall i :: 0 <= i < |ids| ==> ids[i] in s.transactions && rows[i] == s.transactions[ids[i]])
    && (forall i, j :: 0 <= i < j < |rows| ==> rows[i].createdAt <= rows[j].createdAt)
  }

  // =====================================================================
  // Grouping

  /** The group key of a transaction. Any `groupBy` other than "week" and
      "month" groups by day. */
  function GroupKey(createdAt: int, groupBy: string): string {
    var day := DayNumber(createdAt);
    if groupBy == "week" then WeekKey(day)
    else if groupBy == "month" then MonthKey(day)
    else IsoDate(day)
  }

  /** The key of a row under `groupBy`. */
  function KeyFn(groupBy: string): Transaction -> string {
    (t: Transaction) => GroupKey(t.createdAt, groupBy)
  }

  /** What a row adds to its group's revenue, and to its count. */
  function Amount(t: Transaction): int { t.amount }
  function One(t: Transaction): int { 1 }

  /** The keys of the rows, each once, in the order they first appear:
      the order `Object.entries` lists the groups in, since no key is an
      array index. */
  function Order(rows: seq<Transaction>, key: Transaction -> string): seq<string> {
    if rows == [] then []
    else
      var o := Order(rows[..|rows| - 1], key);
      var k := key(rows[|rows| - 1]);
      if k in o then o else o + [k]
  }

  /** The sum of `w` over the rows in group `k`. */
  function Tally(rows: seq<Transaction>, key: Transaction -> string, k: string, w: Transaction -> int): int {
    if rows == [] then 0
    else Tally(rows[..|rows| - 1], key, k, w) + (if key(rows[|rows| - 1]) == k then w(rows[|rows| - 1]) else 0)
  }

  /** The sum of `w` over all rows. */
  function Total(rows: seq<Transaction>, w: Transaction -> int): int {
    if rows == [] then 0 else Total(rows[..|rows| - 1], w) + w(rows[|rows| - 1])
  }

  datatype Bucket = Bucket(revenue: int, count: int)

  datatype ChartPoint = ChartPoint(date: string, revenue: int, count: int)

  /** One point per group, in first-appearance order. */
  function Chart(rows: seq<Transaction>, key: Transaction -> string): seq<ChartPoint> {
    var o := Order(rows, key);
    seq(|o|, j requires 0 <= j < |o| => ChartPoint(o[j], Tally(rows, key, o[j], Amount), Tally(rows, key, o[j], One)))
  }

  /** A key absent from the order has no rows, and so nothing to tally. */
  lemma {:induction false} UnlistedIsEmpty(rows: seq<Transaction>, key: Transaction -> string, k: string, w: Transaction -> int)
    requires k !in Order(rows, key)
    ensures Tally(rows, key, k, w) == 0
  {
    if rows != [] {
      var p := rows[..|rows| - 1];
      assert k !in Order(p, key);
      UnlistedIsEmpty(p, key, k, w);
    }
  }

  /** The order lists exactly the keys of the rows, each once. */
  lemma {:induction false} OrderFacts(rows: seq<Transaction>, key: Transaction -> string)
    ensures forall i, j :: 0 <= i < j < |Order(rows, key)| ==> Order(rows, key)[i] != Order(rows, key)[j]
    ensures forall i :: 0 <= i < |rows| ==> key(rows[i]) in Order(rows, key)
    ensures forall k :: k in Order(rows, key) ==> Tally(rows, key, k, One) > 0
  {
    if rows != [] {
      var p := rows[..|rows| - 1];
      OrderFacts(p, key);
      var t := rows[|rows| - 1];
      if key(t) !in Order(p, key) {
        UnlistedIsEmpty(p, key, key(t), One);
      }
      forall i | 0 <= i < |rows| ensures key(rows[i]) in Order(rows, key) {
        if i < |p| {
          assert rows[i] == p[i];
        }
      }
    }
  }

  // ---------------------------------------------------------------------
  // The loop

  /** `groups` and `order` hold the revenue and count of each group of
      `prefix`, and the groups in first-appearance order. */
  ghost predicate Grouped(prefix: seq<Transaction>, key: Transaction -> string, groups: map<string, Bucket>, order: seq<string>) {
    && order == Order(prefix, key)
    && (forall k :: k in groups <==> k in order)
    && (forall k :: k in groups ==>
          groups[k] == Bucket(Tally(prefix, key, k, Amount), Tally(prefix, key, k, One)))
  }

  /** Adding a row to its group, opening the group when it is new, keeps
      the groups right. */
  lemma GroupedStep(rows: seq<Transaction>, i: nat, key: Transaction -> string,
                    groups: map<string, Bucket>, order: seq<string>)
    requires i < |rows| && Grouped(rows[..i], key, groups, order)
    ensures var k := key(rows[i]);
            var g := if k in groups then groups[k] else Bucket(0, 0);
            var o := if k in groups then order else order + [k];
            Grouped(rows[..i + 1], key, groups[k := Bucket(g.revenue + rows[i].amount, g.count + 1)], o)
  {
    var prefix, t := rows[..i], rows[i];
    assert rows[..i + 1][..i] == prefix;
    if key(t) !in groups {
      UnlistedIsEmpty(prefix, key, key(t), Amount);
      UnlistedIsEmpty(prefix, key, key(t), One);
    }
  }

  /** The chart of complete groups is the chart of the rows. */
  lemma GroupedChart(rows: seq<Transaction>, key: Transaction -> string, groups: map<string, Bucket>, order: seq<string>)
    requires Grouped(rows, key, groups, order)
    ensures forall k :: k in order ==> k in groups
    ensures seq(|order|, j requires 0 <= j < |order| => ChartPoint(order[j], groups[order[j]].revenue, groups[order[j]].count))
            == Chart(rows, key)
  {
  }

  /** `transactions.forEach(...)` into `groupedData`, then
      `Object.entries(groupedData).map(...)`. */
  method GroupRevenue(rows: seq<Transaction>, groupBy: string) returns (chart: seq<ChartPoint>)
    ensures chart == Chart(rows, KeyFn(groupBy))
  {
    ghost var key := KeyFn(groupBy);
    var groups: map<string, Bucket> := map[];
    var order: seq<string> := [];
    var i := 0;
    while i < |rows|
      invariant 0 <= i <= |rows|
      invariant Grouped(rows[..i], key, groups, order)
    {
      var k := GroupKey(rows[i].createdAt, groupBy);
      assert k == key(rows[i]);
      GroupedStep(rows, i, key, groups, order);
      var g := if k in groups then groups[k] else Bucket(0, 0);
      if k !in groups {
        order := order + [k];
      }
      groups := groups[k := Bucket(g.revenue + rows[i].amount, g.count + 1)];
      i := i + 1;
    }
    assert rows[..i] == rows;
    GroupedChart(rows, key, groups, order);
    chart := seq(|order|, j requires 0 <= j < |order| =>
                   ChartPoint(order[j], groups[order[j]].revenue, groups[order[j]].count));
  }

  // ---------------------------------------------------------------------
  // The groups add up to the totals

  function RevenueTotal(chart: seq<ChartPoint>): int {
    if chart == [] then 0 else RevenueTotal(chart[..|chart| - 1]) + chart[|chart| - 1].revenue
  }

  function CountTotal(chart: seq<ChartPoint>): int {
    if chart == [] then 0 else CountTotal(chart[..|chart| - 1]) + chart[|chart| - 1].count
  }

  /** The sum of the tallies of the keys `ks`. */
  function TallySum(rows: seq<Transaction>, key: Transaction -> string, ks: seq<string>, w: Transaction -> int): int {
    if ks == [] then 0 else TallySum(rows, key, ks[..|ks| - 1], w) + Tally(rows, key, ks[|ks| - 1], w)
  }

  /** One more row adds its weight to the sum over distinct keys exactly
      when its key is among them. */
  lemma {:induction false} TallySumStep(p: seq<Transaction>, t: Transaction, key: Transaction -> string, ks: seq<string>,
                                        w: Transaction -> int)
    requires forall i, j :: 0 <= i < j < |ks| ==> ks[i] != ks[j]
    ensures TallySum(p + [t], key, ks, w) == TallySum(p, key, ks, w) + (if key(t) in ks then w(t) else 0)
  {
    if ks != [] {
      var front := ks[..|ks| - 1];
      TallySumStep(p, t, key, front, w);
      assert (p + [t])[..|p + [t]| - 1] == p;
      assert key(t) in ks <==> key(t) in front || key(t) == ks[|ks| - 1];
      if key(t) == ks[|ks| - 1] {
        assert key(t) !in front;
      }
    }
  }

  /** Summed over the groups, the tallies give the total over the rows. */
  lemma {:induction false} GroupsCoverRows(rows: seq<Transaction>, key: Transaction -> string, w: Transaction -> int)
    ensures TallySum(rows, key, Order(rows, key), w) == Total(rows, w)
  {
    if rows != [] {
      var p := rows[..|rows| - 1];
      var t := rows[|rows| - 1];
      var o := Order(p, key);
      assert rows == p + [t];
      GroupsCoverRows(p, key, w);
      OrderFacts(p, key);
      TallySumStep(p, t, key, o, w);
      if key(t) !in o {
        UnlistedIsEmpty(p, key, key(t), w);
        assert (o + [key(t)])[..|o|] == o;
      }
    }
  }

  /** The chart's points carry the tallies of the ordered keys. */
  lemma {:induction false} ChartSums(rows: seq<Transaction>, key: Transaction -> string, ks: seq<string>)
    ensures var pts := seq(|ks|, j requires 0 <= j < |ks| =>
                           ChartPoint(ks[j], Tally(rows, key, ks[j], Amount), Tally(rows, key, ks[j], One)));
            RevenueTotal(pts) == TallySum(rows, key, ks, Amount) && CountTotal(pts) == TallySum(rows, key, ks, One)
  {
    if ks != [] {
      var front := ks[..|ks| - 1];
      ChartSums(rows, key, front);
      var pts := seq(|ks|, j requires 0 <= j < |ks| =>
                     ChartPoint(ks[j], Tally(rows, key, ks[j], Amount), Tally(rows, key, ks[j], One)));
      var fpts := seq(|front|, j requires 0 <= j < |front| =>
                      ChartPoint(front[j], Tally(rows, key, front[j], Amount), Tally(rows, key, front[j], One)));
      assert pts[..|pts| - 1] == fpts;
    }
  }

  /** The groups' revenues add up to the total revenue and their counts to
      the number of transactions; every group has at least one
      transaction, no date appears twice, and every transaction's key has a
      point. */
  lemma ChartAddsUp(rows: seq<Transaction>, key: Transaction -> string)
    ensures RevenueTotal(Chart(rows, key)) == Total(rows, Amount)
    ensures CountTotal(Chart(rows, key)) == |rows|
    ensures forall i :: 0 <= i < |Chart(rows, key)| ==> Chart(rows, key)[i].count > 0
    ensures forall i, j :: 0 <= i < j < |Chart(rows, key)| ==> Chart(rows, key)[i].date != Chart(rows, key)[j].date
    ensures forall i :: 0 <= i < |rows| ==> exists j :: 0 <= j < |Chart(rows, key)| && Chart(rows, key)[j].date == key(rows[i])
  {
    var o := Order(rows, key);
    ChartSums(rows, key, o);
    GroupsCoverRows(rows, key, Amount);
    GroupsCoverRows(rows, key, One);
    CountIsLength(rows);
    OrderFacts(rows, key);
    forall i | 0 <= i < |rows|
      ensures exists j :: 0 <= j < |Chart(rows, key)| && Chart(rows, key)[j].date == key(rows[i])
    {
      var j :| 0 <= j < |o| && o[j] == key(rows[i]);
      assert Chart(rows, key)[j].date == o[j];
    }
  }

  lemma {:induction false} CountIsLength(rows: seq<Transaction>)
    ensures Total(rows, One) == |rows|
  {
    if rows != [] {
      CountIsLength(rows[..|rows| - 1]);
    }
  }

  // =====================================================================
  // The report

  datatype Summary = Summary(totalRevenue: int, totalTransactions: nat, averageTransaction: real)

  datatype Report = Report(period: Window, summary: Summary, chartData: seq<ChartPoint>)

  /** The mean amount, or 0 when there are no transactions. */
  function Average(total: int, n: nat): real {
    if n > 0 then total as real / n as real else 0.0
  }

  /** `getFinancialReport` over the rows its query returned for the window
      `w`. */
  method FinancialReport(rows: seq<Transaction>, groupBy: string, w: Window) returns (report: Report)
    ensures report.period == w
    ensures report.chartData == Chart(rows, KeyFn(groupBy))
    ensures report.summary == Summary(Total(rows, Amount), |rows|, Average(Total(rows, Amount), |rows|))
  {
    var chart := GroupRevenue(rows, groupBy);
    var total := 0;
    var i := 0;
    while i < |rows|
      invariant 0 <= i <= |rows|
      invariant total == Total(rows[..i], Amount)
    {
      assert rows[..i + 1][..i] == rows[..i];
      total := total + rows[i].amount;
      i := i + 1;
    }
    assert rows[..i] == rows;
    var average := if |rows| > 0 then total as real / |rows| as real else 0.0;
    report := Report(w, Summary(total, |rows|, average), chart);
  }

  // ---------------------------------------------------------------------
  // The report agrees with the aggregate over the same window

  function AmountOf(s: State): nat -> int {
    k => if k in s.transactions then s.transactions[k].amount else 0
  }

  /** The total of the returned rows is the `_sum` of the amounts of the
      paid transactions in the window, as the dashboard computes it. */
  lemma ReportTotalIsSum(s: State, w: Window, ids: seq<Id>, rows: seq<Transaction>)
    requires QueryResult(s, w, ids, rows)
    ensures Total(rows, Amount) == Aggregates.SumOver(PaidBetween(s, w), AmountOf(s))
  {
    RowsSumIsIdSum(s, ids, rows);
    Aggregates.SeqSumIsSumOver(ids, AmountOf(s));
    assert Aggregates.Elems(ids) == PaidBetween(s, w) by {
      forall k ensures k in Aggregates.Elems(ids) <==> k in PaidBetween(s, w) {
        assert k in ids <==> k in PaidBetween(s, w);
      }
    }
  }

  /** Row by row, the amounts are those of the ids' transactions. */
  lemma {:induction false} RowsSumIsIdSum(s: State, ids: seq<Id>, rows: seq<Transaction>)
    requires |ids| == |rows|
    requires forall i :: 0 <= i < |ids| ==> ids[i] in s.transactions && rows[i] == s.transactions[ids[i]]
    ensures Total(rows, Amount) == Aggregates.SeqSum(ids, AmountOf(s))
  {
    if ids != [] {
      var n := |ids| - 1;
      RowsSumIsIdSum(s, ids[..n], rows[..n]);
    }
  }
}
