/** The sales ledger: an append-only record of sales, queried by calendar
    date. */
module Ledger {
  import opened Sales

  /** The sales made on `date`, in the order they were recorded. */
  function SalesOnDate(ledger: seq<Sale>, date: Date): (r: seq<Sale>)
    ensures |r| <= |ledger|
    ensures forall s :: s in r <==> s in ledger && s.saleTime.date == date
  {
    if ledger == [] then []
    else (if ledger[0].saleTime.date == date then [ledger[0]] else []) + SalesOnDate(ledger[1..], date)
  }

  /** Sum of the prices of the given sales. */
  function TotalRevenue(sales: seq<Sale>): real
  {
    if sales == [] then 0.0 else sales[0].price + TotalRevenue(sales[1..])
  }

  /** Valid sales never add up to a negative revenue. */
  lemma {:induction false} TotalRevenueNonNegative(sales: seq<Sale>)
    ensures AllValid(sales) ==> TotalRevenue(sales) >= 0.0
  {
    if sales != [] && AllValid(sales) {
      assert sales[0] in sales;
      assert forall s :: s in sales[1..] ==> s in sales;
      TotalRevenueNonNegative(sales[1..]);
    }
  }

  /** Filtering by date keeps order: the sales of a longer ledger on a date
      are those of its first part followed by those of its second part. */
  lemma {:induction false} SalesOnDateAppend(a: seq<Sale>, b: seq<Sale>, date: Date)
    ensures SalesOnDate(a + b, date) == SalesOnDate(a, date) + SalesOnDate(b, date)
  {
    if a == [] {
      assert a + b == b;
    } else {
      assert (a + b)[1..] == a[1..] + b;
      SalesOnDateAppend(a[1..], b, date);
    }
  }

  /** Revenue of two runs of sales is the sum of their revenues. */
  lemma {:induction false} TotalRevenueAppend(a: seq<Sale>, b: seq<Sale>)
    ensures TotalRevenue(a + b) == TotalRevenue(a) + TotalRevenue(b)
  {
    if a == [] {
      assert a + b == b;
    } else {
      assert (a + b)[1..] == a[1..] + b;
      TotalRevenueAppend(a[1..], b);
    }
  }

  /** Sales all dated `date` pass the date filter unchanged. */
  lemma {:induction false} SalesOnOwnDate(batch: seq<Sale>, date: Date)
    requires forall s :: s in batch ==> s.saleTime.date == date
    ensures SalesOnDate(batch, date) == batch
  {
    if batch != [] {
      assert batch[0] in batch;
      SalesOnOwnDate(batch[1..], date);
    }
  }

  /** Sales all dated `date` contribute nothing to any other date. */
  lemma {:induction false} SalesOnOtherDate(batch: seq<Sale>, date: Date, other: Date)
    requires forall s :: s in batch ==> s.saleTime.date == date
    requires other != date
    ensures SalesOnDate(batch, other) == []
  {
    if batch != [] {
      assert batch[0] in batch;
      SalesOnOtherDate(batch[1..], date, other);
    }
  }

  /** Recording a batch of sales dated `date` raises that date's count by the
      batch size and its revenue by the batch's price sum; every other date
      sees the same sales as before. */
  lemma RecordBatchOnDate(ledger: seq<Sale>, batch: seq<Sale>, date: Date)
    requires forall s :: s in batch ==> s.saleTime.date == date
    ensures |SalesOnDate(ledger + batch, date)| == |SalesOnDate(ledger, date)| + |batch|
    ensures TotalRevenue(SalesOnDate(ledger + batch, date)) == TotalRevenue(SalesOnDate(ledger, date)) + TotalRevenue(batch)
    ensures forall other :: other != date ==> SalesOnDate(ledger + batch, other) == SalesOnDate(ledger, other)
  {
    SalesOnDateAppend(ledger, batch, date);
    SalesOnOwnDate(batch, date);
    TotalRevenueAppend(SalesOnDate(ledger, date), batch);
    forall other | other != date
      ensures SalesOnDate(ledger + batch, other) == SalesOnDate(ledger, other)
    {
      SalesOnDateAppend(ledger, batch, other);
      SalesOnOtherDate(batch, date, other);
      assert SalesOnDate(ledger, other) + [] == SalesOnDate(ledger, other);
    }
  }

  class InMemorySalesRepository {
    var sales: seq<Sale>

    /** Every recorded sale passed the sale constructor's check. */
    ghost predicate Valid()
      reads this
    {
      AllValid(sales)
    }

    /** A new ledger is empty. */
    constructor ()
      ensures Valid() && sales == []
    {
      sales := [];
    }

    /** Appends a sale; nothing recorded earlier changes. */
    method RecordSale(sale: Sale)
      requires Valid() && ValidSale(sale)
      modifies this
      ensures Valid()
      ensures sales == old(sales) + [sale]
    {
      sales := sales + [sale];
    }

    /** The sales made on `date`, in insertion order. */
    function GetSalesByDate(date: Date): (r: seq<Sale>)
      reads this
      ensures forall s :: s in r <==> s in sales && s.saleTime.date == date
    {
      SalesOnDate(sales, date)
    }

    /** The whole ledger in insertion order, as a value. */
    function GetAllSales(): (r: seq<Sale>)
      reads this
      ensures |r| == |sales| && forall k :: 0 <= k < |r| ==> r[k] == sales[k]
    {
      sales
    }

    /** Revenue on `date`: the price sum of that date's sales. */
    function GetTotalRevenueByDate(date: Date): (total: real)
      reads this
      ensures total == TotalRevenue(GetSalesByDate(date))
      ensures Valid() ==> total >= 0.0
    {
      TotalRevenueNonNegative(GetSalesByDate(date));
      TotalRevenue(GetSalesByDate(date))
    }

    /** Number of sales on `date`. */
    function GetSalesCountByDate(date: Date): (count: nat)
      reads this
      ensures count == |GetSalesByDate(date)|
      ensures count <= |sales|
    {
      |GetSalesByDate(date)|
    }
  }
}
