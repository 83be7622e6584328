/**
 * The monthly stock report: the stock-in and stock-out rows of a year
 * become a fixed table of twelve months, with the in and out quantity of
 * each month, their difference, and the year's totals.
 */
module MonthlyReport {
  import opened Seqs
  import opened Text
  import opened Pagination

  /** One row of `/stock-in/report/monthly` or `/stock-out/report/monthly`. */
  datatype ReportRow = ReportRow(month: int, totalQuantity: int)

  /** One row of `chartData`; `caption` is the "Tháng m" caption. */
  datatype MonthEntry = MonthEntry(month: nat, caption: string, stockIn: int, stockOut: int, difference: int)

  const Months: nat := 12

  // ---------------------------------------------------------------------
  // Looking a month up
  // ---------------------------------------------------------------------

  /** `report.find((r) => r.month === month)?.total_quantity || 0`. */
  function MonthQuantity(rows: seq<ReportRow>, month: int): (q: int)
    ensures (forall i :: 0 <= i < |rows| ==> rows[i].month != month) ==> q == 0
    ensures forall i ::
      (0 <= i < |rows| && rows[i].month == month && (forall j :: 0 <= j < i ==> rows[j].month != month))
      ==> q == rows[i].totalQuantity
  {
    if rows == [] then 0
    else if rows[0].month == month then rows[0].totalQuantity
    else
      var rest := rows[1..];
      var q := MonthQuantity(rest, month);
      assert forall i ::
        (0 <= i < |rows| && rows[i].month == month && (forall j :: 0 <= j < i ==> rows[j].month != month))
        ==> q == rows[i].totalQuantity by {
        forall i | 0 <= i < |rows| && rows[i].month == month && (forall j :: 0 <= j < i ==> rows[j].month != month)
          ensures q == rows[i].totalQuantity
        {
          assert rest[i - 1] == rows[i];
          forall j | 0 <= j < i - 1
            ensures rest[j].month != month
          {
            assert rest[j] == rows[j + 1];
          }
        }
      }
      assert forall i :: 0 <= i < |rest| ==> rest[i] == rows[i + 1];
      q
  }

  /** A row added after the others changes nothing for another month, nor
      for a month an earlier row already gave. */
  lemma {:induction false} MonthQuantitySnoc(rows: seq<ReportRow>, r: ReportRow, month: int)
    requires r.month != month || (exists i :: 0 <= i < |rows| && rows[i].month == month)
    ensures MonthQuantity(rows + [r], month) == MonthQuantity(rows, month)
  {
    if rows != [] {
      assert (rows + [r])[1..] == rows[1..] + [r];
      if rows[0].month != month && r.month == month {
        var i :| 0 <= i < |rows| && rows[i].month == month;
        assert rows[1..][i - 1] == rows[i];
      }
      if rows[0].month != month {
        MonthQuantitySnoc(rows[1..], r, month);
      }
    }
  }

  // ---------------------------------------------------------------------
  // The table
  // ---------------------------------------------------------------------

  function Caption(month: nat): string
  {
    "Tháng " + Decimal(month)
  }

  /** The row of one month: its first in and out quantity, 0 when the
      month has none, and in minus out. */
  function Entry(stockIn: seq<ReportRow>, stockOut: seq<ReportRow>, month: nat): (e: MonthEntry)
    ensures e.month == month && e.difference == e.stockIn - e.stockOut
    ensures (forall i :: 0 <= i < |stockIn| ==> stockIn[i].month != month) ==> e.stockIn == 0
    ensures (forall i :: 0 <= i < |stockOut| ==> stockOut[i].month != month) ==> e.stockOut == 0
  {
    var inQty := MonthQuantity(stockIn, month);
    var outQty := MonthQuantity(stockOut, month);
    MonthEntry(month, Caption(month), inQty, outQty, inQty - outQty)
  }

  /** `Array.from({ length: 12 }, ...)`: months 1 to 12 in order, each with
      its first in and out quantity (0 when absent) and in minus out. */
  function ChartData(stockIn: seq<ReportRow>, stockOut: seq<ReportRow>): (d: seq<MonthEntry>)
    ensures |d| == Months
    ensures forall i :: 0 <= i < |d| ==>
      && d[i].month == i + 1
      && d[i].caption == Caption(i + 1)
      && d[i].stockIn == MonthQuantity(stockIn, i + 1)
      && d[i].stockOut == MonthQuantity(stockOut, i + 1)
      && d[i].difference == d[i].stockIn - d[i].stockOut
  {
    seq(Months, i requires 0 <= i < Months => Entry(stockIn, stockOut, i + 1))
  }

  /** Rows for a month outside 1..12, and later rows for a month already
      given, leave the table as it was. */
  lemma IgnoredRow(stockIn: seq<ReportRow>, stockOut: seq<ReportRow>, r: ReportRow)
    requires !(1 <= r.month <= Months) || (exists i :: 0 <= i < |stockIn| && stockIn[i].month == r.month)
    ensures ChartData(stockIn + [r], stockOut) == ChartData(stockIn, stockOut)
  {
    var a, b := ChartData(stockIn + [r], stockOut), ChartData(stockIn, stockOut);
    forall i | 0 <= i < Months
      ensures a[i] == b[i]
    {
      MonthQuantitySnoc(stockIn, r, i + 1);
      assert a[i] == Entry(stockIn + [r], stockOut, i + 1);
      assert b[i] == Entry(stockIn, stockOut, i + 1);
    }
    assert |a| == |b|;
  }

  // ---------------------------------------------------------------------
  // Totals
  // ---------------------------------------------------------------------

  function Ins(d: seq<MonthEntry>): (xs: seq<int>)
    ensures |xs| == |d| && forall i :: 0 <= i < |d| ==> xs[i] == d[i].stockIn
  {
    seq(|d|, i requires 0 <= i < |d| => d[i].stockIn)
  }

  function Outs(d: seq<MonthEntry>): (xs: seq<int>)
    ensures |xs| == |d| && forall i :: 0 <= i < |d| ==> xs[i] == d[i].stockOut
  {
    seq(|d|, i requires 0 <= i < |d| => d[i].stockOut)
  }

  function Differences(d: seq<MonthEntry>): (xs: seq<int>)
    ensures |xs| == |d| && forall i :: 0 <= i < |d| ==> xs[i] == d[i].difference
  {
    seq(|d|, i requires 0 <= i < |d| => d[i].difference)
  }

  /** `chartData.reduce((acc, cur) => acc + cur.Nhập, 0)`. */
  function TotalIn(d: seq<MonthEntry>): int { Sum(Ins(d)) }

  /** `chartData.reduce((acc, cur) => acc + cur.Xuất, 0)`. */
  function TotalOut(d: seq<MonthEntry>): int { Sum(Outs(d)) }

  /** The twelve first quantities of a report, month 1 first. */
  function MonthColumn(rows: seq<ReportRow>): (xs: seq<int>)
    ensures |xs| == Months && forall k :: 0 <= k < Months ==> xs[k] == MonthQuantity(rows, k + 1)
  {
    seq(Months, k requires 0 <= k < Months => MonthQuantity(rows, k + 1))
  }

  /** The year's totals add up the first quantity of each month 1..12 of
      their report, 0 for a month without rows; other rows add nothing. */
  lemma TotalsAreMonthSums(stockIn: seq<ReportRow>, stockOut: seq<ReportRow>)
    ensures var d := ChartData(stockIn, stockOut);
      TotalIn(d) == Sum(MonthColumn(stockIn)) && TotalOut(d) == Sum(MonthColumn(stockOut))
  {
    var d := ChartData(stockIn, stockOut);
    assert Ins(d) == MonthColumn(stockIn);
    assert Outs(d) == MonthColumn(stockOut);
  }

  /** `totalIn - totalOut`: when every entry's difference is its in minus
      its out, this is the sum of the differences. */
  function TotalDiff(d: seq<MonthEntry>): (r: int)
    ensures (forall i :: 0 <= i < |d| ==> d[i].difference == d[i].stockIn - d[i].stockOut) ==>
      r == Sum(Differences(d))
  {
    if forall i :: 0 <= i < |d| ==> d[i].difference == d[i].stockIn - d[i].stockOut then
      SumMinus(Ins(d), Outs(d), Differences(d));
      TotalIn(d) - TotalOut(d)
    else TotalIn(d) - TotalOut(d)
  }

  /** A difference of sums is the sum of the differences. */
  lemma {:induction false} SumMinus(xs: seq<int>, ys: seq<int>, zs: seq<int>)
    requires |xs| == |ys| == |zs|
    requires forall i :: 0 <= i < |zs| ==> zs[i] == xs[i] - ys[i]
    ensures Sum(zs) == Sum(xs) - Sum(ys)
  {
    if zs != [] {
      var n := |zs| - 1;
      SumMinus(xs[..n], ys[..n], zs[..n]);
    }
  }

  /** The year's difference is the sum of the twelve monthly differences. */
  lemma TotalDiffIsSumOfDifferences(stockIn: seq<ReportRow>, stockOut: seq<ReportRow>)
    ensures var d := ChartData(stockIn, stockOut);
      TotalDiff(d) == Sum(Differences(d))
  {
    var d := ChartData(stockIn, stockOut);
    SumMinus(Ins(d), Outs(d), Differences(d));
  }

  // ---------------------------------------------------------------------
  // How a difference is shown
  // ---------------------------------------------------------------------

  datatype Trend = Up | Down | Flat

  /** ↗️ for an increase, ↘️ for a decrease, ➡️ for none. */
  function TrendOf(difference: int): (t: Trend)
    ensures t == Up <==> difference > 0
    ensures t == Down <==> difference < 0
    ensures t == Flat <==> difference == 0
  {
    if difference > 0 then Up else if difference < 0 then Down else Flat
  }

  /** `Math.abs(d.difference)`. */
  function Magnitude(difference: int): (m: nat)
    ensures m == difference || m == -difference
  {
    if difference < 0 then -difference else difference
  }

  /** A month shows ↗️ when more came in than went out, ↘️ when less,
      ➡️ when the two match, always next to the size of the gap. */
  lemma EntryTrend(stockIn: seq<ReportRow>, stockOut: seq<ReportRow>, i: int)
    requires 0 <= i < Months
    ensures var e := ChartData(stockIn, stockOut)[i];
      && (TrendOf(e.difference) == Up <==> e.stockIn > e.stockOut)
      && (TrendOf(e.difference) == Down <==> e.stockIn < e.stockOut)
      && (TrendOf(e.difference) == Flat <==> e.stockIn == e.stockOut)
      && Magnitude(e.difference) + Min(e.stockIn, e.stockOut) == Max(e.stockIn, e.stockOut)
  {
  }
}
