/**
 * Dashboard figures derived from the catalog and the sales ledger: total
 * revenue, order and product counts, the low-stock count and alert list, and
 * the per-day revenue series drawn in the sales chart.
 */
module Dashboard {
  import opened Records

  /** Products whose stock is below this many units are "low stock". */
  const LowStockThreshold: int := 10

  /** Sum of `totalPrice` over a run of sales (the dashboard's `reduce`). */
  function Revenue(sales: seq<Sale>): real
  {
    if |sales| == 0 then 0.0 else sales[0].totalPrice + Revenue(sales[1..])
  }

  /** Sum of `quantity` over a run of sales. */
  function ItemsSold(sales: seq<Sale>): int
  {
    if |sales| == 0 then 0 else sales[0].quantity + ItemsSold(sales[1..])
  }

  /** Revenue is additive: the revenue of two ledgers back to back is the sum of theirs. */
  lemma {:induction false} RevenueAppend(a: seq<Sale>, b: seq<Sale>)
    ensures Revenue(a + b) == Revenue(a) + Revenue(b)
  {
    if |a| > 0 {
      assert (a + b)[1..] == a[1..] + b;
      RevenueAppend(a[1..], b);
    } else {
      assert a + b == b;
    }
  }

  /** Items sold is additive in the same way. */
  lemma {:induction false} ItemsSoldAppend(a: seq<Sale>, b: seq<Sale>)
    ensures ItemsSold(a + b) == ItemsSold(a) + ItemsSold(b)
  {
    if |a| > 0 {
      assert (a + b)[1..] == a[1..] + b;
      ItemsSoldAppend(a[1..], b);
    } else {
      assert a + b == b;
    }
  }

  /** A ledger of sales none of which is priced below zero has non-negative revenue. */
  lemma {:induction false} RevenueNonNegative(sales: seq<Sale>)
    ensures (forall i :: 0 <= i < |sales| ==> sales[i].totalPrice >= 0.0) ==> Revenue(sales) >= 0.0
  {
    if |sales| > 0 {
      RevenueNonNegative(sales[1..]);
      assert (forall i :: 0 <= i < |sales| ==> sales[i].totalPrice >= 0.0) ==>
             (forall i :: 0 <= i < |sales[1..]| ==> sales[1..][i].totalPrice >= 0.0) by {
        forall i | 0 <= i < |sales[1..]| ensures sales[1..][i] == sales[i + 1] { }
      }
    }
  }

  predicate IsLowStock(p: Product)
  {
    p.stock < LowStockThreshold
  }

  /** The products listed in the low-stock alert panel, in catalog order. */
  function LowStockAlert(products: seq<Product>): seq<Product>
  {
    Filter(products, IsLowStock)
  }

  /** The number of low-stock products, counted one product at a time. */
  function CountLowStock(products: seq<Product>): nat
  {
    if |products| == 0 then 0
    else (if IsLowStock(products[0]) then 1 else 0) + CountLowStock(products[1..])
  }

  /** The alert panel lists exactly the low-stock products, one entry per product. */
  lemma {:induction false} LowStockAlertCount(products: seq<Product>)
    ensures |LowStockAlert(products)| == CountLowStock(products)
    ensures forall p :: p in LowStockAlert(products) <==> p in products && p.stock < 10
  {
    if |products| > 0 {
      LowStockAlertCount(products[1..]);
    }
  }

  datatype Stats = Stats(totalRevenue: real, orderCount: nat, productCount: nat, lowStockCount: nat)

  /** The four figures on the dashboard cards. */
  function DashboardStats(products: seq<Product>, sales: seq<Sale>): (st: Stats)
    ensures st.totalRevenue == Revenue(sales)
    ensures st.orderCount == |sales| && st.productCount == |products|
    ensures st.lowStockCount == CountLowStock(products) == |LowStockAlert(products)|
    ensures st.lowStockCount <= st.productCount
    ensures (forall i :: 0 <= i < |sales| ==> sales[i].totalPrice >= 0.0) ==> st.totalRevenue >= 0.0
  {
    LowStockAlertCount(products);
    RevenueNonNegative(sales);
    Stats(Revenue(sales), |sales|, |products|, |Filter(products, IsLowStock)|)
  }

  /** The sales dated exactly `day` (string equality, not calendar-aware). */
  function SalesOn(sales: seq<Sale>, day: string): (r: seq<Sale>)
    ensures |r| <= |sales|
    ensures forall s :: s in r <==> s in sales && s.date == day
  {
    Filter(sales, (s: Sale) => s.date == day)
  }

  /** Reference definition of a day's revenue: sum of `totalPrice` over the sales dated `day`. */
  function DayRevenue(sales: seq<Sale>, day: string): real
  {
    if |sales| == 0 then 0.0
    else (if sales[0].date == day then sales[0].totalPrice else 0.0) + DayRevenue(sales[1..], day)
  }

  lemma {:induction false} SalesOnRevenue(sales: seq<Sale>, day: string)
    ensures Revenue(SalesOn(sales, day)) == DayRevenue(sales, day)
  {
    if |sales| > 0 {
      var keep := (s: Sale) => s.date == day;
      assert SalesOn(sales, day) == (if keep(sales[0]) then [sales[0]] else []) + SalesOn(sales[1..], day);
      RevenueAppend(if keep(sales[0]) then [sales[0]] else [], SalesOn(sales[1..], day));
      SalesOnRevenue(sales[1..], day);
    }
  }

  /** A day with no sale dated on it contributes 0. */
  lemma {:induction false} DayRevenueNoSales(sales: seq<Sale>, day: string)
    requires forall i :: 0 <= i < |sales| ==> sales[i].date != day
    ensures DayRevenue(sales, day) == 0.0
  {
    if |sales| > 0 {
      DayRevenueNoSales(sales[1..], day);
    }
  }

  /**
   * The sales chart's series: for each day of the given window (the caller
   * supplies the last seven ISO dates), the revenue of the sales dated that day.
   */
  function DayTotals(sales: seq<Sale>, days: seq<string>): (r: seq<real>)
    ensures |r| == |days|
    ensures forall i :: 0 <= i < |days| ==> r[i] == DayRevenue(sales, days[i])
  {
    if |days| == 0 then []
    else
      SalesOnRevenue(sales, days[0]);
      [Revenue(SalesOn(sales, days[0]))] + DayTotals(sales, days[1..])
  }

  /** A day of the window on which nothing was sold shows 0 in the series. */
  lemma DayTotalsZero(sales: seq<Sale>, days: seq<string>, i: nat)
    requires i < |days|
    requires forall j :: 0 <= j < |sales| ==> sales[j].date != days[i]
    ensures DayTotals(sales, days)[i] == 0.0
  {
    DayRevenueNoSales(sales, days[i]);
  }

  function Sum(xs: seq<real>): real
  {
    if |xs| == 0 then 0.0 else xs[0] + Sum(xs[1..])
  }

  predicate DistinctDays(days: seq<string>)
  {
    forall i, j :: 0 <= i < j < |days| ==> days[i] != days[j]
  }

  /** What one sale adds to the series total over a window of distinct days. */
  function Share(sale: Sale, days: seq<string>): real
  {
    if |days| == 0 then 0.0
    else (if sale.date == days[0] then sale.totalPrice else 0.0) + Share(sale, days[1..])
  }

  lemma {:induction false} ShareOnce(sale: Sale, days: seq<string>)
    requires DistinctDays(days)
    ensures Share(sale, days) == if sale.date in days then sale.totalPrice else 0.0
  {
    if |days| > 0 {
      ShareOnce(sale, days[1..]);
      if sale.date == days[0] {
        assert sale.date !in days[1..] by {
          forall j | 0 <= j < |days[1..]| ensures days[1..][j] != sale.date {
            assert days[0] != days[j + 1];
          }
        }
      } else {
        assert sale.date in days <==> sale.date in days[1..] by {
          assert days == [days[0]] + days[1..];
        }
      }
    }
  }

  lemma {:induction false} SumDayTotalsCons(sales: seq<Sale>, days: seq<string>)
    requires |sales| > 0
    ensures Sum(DayTotals(sales, days)) == Share(sales[0], days) + Sum(DayTotals(sales[1..], days))
  {
    if |days| > 0 {
      SumDayTotalsCons(sales, days[1..]);
      assert DayTotals(sales, days) == [DayRevenue(sales, days[0])] + DayTotals(sales, days[1..]);
      assert DayTotals(sales[1..], days) == [DayRevenue(sales[1..], days[0])] + DayTotals(sales[1..], days[1..]);
    }
  }

  /**
   * Over a window of distinct days, the chart's daily totals add up to the
   * revenue of the sales dated inside the window.
   */
  lemma {:induction false} DayTotalsPartition(sales: seq<Sale>, days: seq<string>)
    requires DistinctDays(days)
    ensures Sum(DayTotals(sales, days)) == Revenue(Filter(sales, (s: Sale) => s.date in days))
  {
    var keep := (s: Sale) => s.date in days;
    if |sales| == 0 {
      if |days| > 0 {
        DayTotalsPartition(sales, days[1..]) by {
          assert DistinctDays(days[1..]) by {
            forall i, j | 0 <= i < j < |days[1..]| ensures days[1..][i] != days[1..][j] {
              assert days[i + 1] != days[j + 1];
            }
          }
        }
        assert Filter(sales, (s: Sale) => s.date in days[1..]) == [];
      }
    } else {
      SumDayTotalsCons(sales, days);
      ShareOnce(sales[0], days);
      DayTotalsPartition(sales[1..], days);
      assert Filter(sales, keep) == (if keep(sales[0]) then [sales[0]] else []) + Filter(sales[1..], keep);
      RevenueAppend(if keep(sales[0]) then [sales[0]] else [], Filter(sales[1..], keep));
    }
  }

  /** Where every sale falls inside the window, the daily totals add up to the whole revenue. */
  lemma DayTotalsCoverRevenue(sales: seq<Sale>, days: seq<string>)
    requires DistinctDays(days)
    requires forall i :: 0 <= i < |sales| ==> sales[i].date in days
    ensures Sum(DayTotals(sales, days)) == Revenue(sales)
  {
    DayTotalsPartition(sales, days);
    FilterAll(sales, (s: Sale) => s.date in days);
  }
}
