/** The daily sales report: a read-only summary of one date's sales. */
module Reports {
  import opened Sales
  import opened Ledger
  import opened RealArith

  datatype DailySalesReport = DailySalesReport(date: Date, sales: seq<Sale>, totalRevenue: real, totalSales: nat)

  /** Builds a report over the given sales: it keeps them, counts them and
      sums their prices. */
  function NewDailySalesReport(date: Date, sales: seq<Sale>): (r: DailySalesReport)
    ensures r.date == date && r.sales == sales
    ensures r.totalSales == |sales|
    ensures r.totalRevenue == TotalRevenue(sales)
    ensures AllValid(sales) ==> r.totalRevenue >= 0.0
  {
    TotalRevenueNonNegative(sales);
    DailySalesReport(date, sales, TotalRevenue(sales), |sales|)
  }

  /** Revenue per sale, or zero on a day without sales. */
  function AverageOrderValue(report: DailySalesReport): (avg: real)
    ensures report.totalSales == 0 ==> avg == 0.0
    ensures report.totalSales > 0 ==> avg * report.totalSales as real == report.totalRevenue
  {
    if report.totalSales > 0 then report.totalRevenue / report.totalSales as real else 0.0
  }

  /** The largest price among the given sales. */
  function MaxPrice(sales: seq<Sale>): (m: real)
    requires sales != []
    ensures forall s :: s in sales ==> s.price <= m
    ensures exists s :: s in sales && s.price == m
  {
    if |sales| == 1 then sales[0].price
    else
      var rest := MaxPrice(sales[1..]);
      assert forall s :: s in sales[1..] ==> s in sales;
      if sales[0].price >= rest then sales[0].price else rest
  }

  /** Revenue never exceeds count times the largest price. */
  lemma {:induction false} RevenueAtMostCountTimesMax(sales: seq<Sale>, bound: real)
    requires forall s :: s in sales ==> s.price <= bound
    ensures TotalRevenue(sales) <= |sales| as real * bound
  {
    if sales != [] {
      var rest := sales[1..];
      assert forall s :: s in rest ==> s in sales;
      RevenueAtMostCountTimesMax(rest, bound);
      assert sales[0] in sales;
      MultiplySuccessor(|sales| as real, |rest| as real, bound);
    }
  }

  /** On a day with valid sales the average order value lies between zero
      and the largest price charged. */
  lemma AverageWithinPrices(date: Date, sales: seq<Sale>)
    requires sales != []
    requires AllValid(sales)
    ensures 0.0 <= AverageOrderValue(NewDailySalesReport(date, sales)) <= MaxPrice(sales)
  {
    var r := NewDailySalesReport(date, sales);
    var n := |sales| as real;
    var avg := AverageOrderValue(r);
    var m := MaxPrice(sales);
    assert avg * n == r.totalRevenue;
    assert r.totalRevenue <= n * m by {
      RevenueAtMostCountTimesMax(sales, m);
    }
    assert avg >= 0.0 by {
      FactorSign(avg, n);
    }
    assert avg <= m by {
      assert (m - avg) * n == n * m - avg * n;
      FactorSign(m - avg, n);
    }
  }

  /** Report of a ledger after recording a batch of sales on one date: the
      count rises by the batch size and the revenue by the batch's prices. */
  lemma ReportAfterBatch(ledger: seq<Sale>, batch: seq<Sale>, date: Date)
    requires forall s :: s in batch ==> s.saleTime.date == date
    ensures NewDailySalesReport(date, SalesOnDate(ledger + batch, date)).totalSales
         == NewDailySalesReport(date, SalesOnDate(ledger, date)).totalSales + |batch|
    ensures NewDailySalesReport(date, SalesOnDate(ledger + batch, date)).totalRevenue
         == NewDailySalesReport(date, SalesOnDate(ledger, date)).totalRevenue + TotalRevenue(batch)
  {
    RecordBatchOnDate(ledger, batch, date);
  }
}
