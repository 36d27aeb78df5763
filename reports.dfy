/**
 * The reports page: the period filter applied to the sales ledger and the
 * summary cards (revenue, items sold, top product) computed from what it keeps.
 */
module Reports {
  import opened Records
  import opened Dashboard
  import opened Ranking

  /** What the top-product card shows when no sale resolves to a product. */
  const NoTopProduct: string := "None"

  /**
   * The period switch of the report page. The week and month windows compare
   * parsed dates with the current clock; the caller supplies those two
   * comparisons as predicates on a sale's date string.
   */
  function ReportSales(sales: seq<Sale>, period: string, today: string,
                       inLastWeek: string -> bool, inLastMonth: string -> bool): (r: seq<Sale>)
    ensures |r| <= |sales|
    ensures period == "today" ==> forall s :: s in r <==> s in sales && s.date == today
    ensures period == "week" ==> forall s :: s in r <==> s in sales && inLastWeek(s.date)
    ensures period == "month" ==> forall s :: s in r <==> s in sales && inLastMonth(s.date)
    ensures period != "today" && period != "week" && period != "month" ==> r == sales
  {
    if period == "today" then Filter(sales, (s: Sale) => s.date == today)
    else if period == "week" then Filter(sales, (s: Sale) => inLastWeek(s.date))
    else if period == "month" then Filter(sales, (s: Sale) => inLastMonth(s.date))
    else sales
  }

  /**
   * "today" keeps exactly the sales dated today, each as often as it occurs,
   * in ledger order.
   */
  lemma ReportToday(sales: seq<Sale>, today: string, inLastWeek: string -> bool, inLastMonth: string -> bool)
    ensures forall x :: x in ReportSales(sales, "today", today, inLastWeek, inLastMonth) <==>
              x in sales && x.date == today
    ensures forall x :: multiset(ReportSales(sales, "today", today, inLastWeek, inLastMonth))[x] ==
              if x.date == today then multiset(sales)[x] else 0
    ensures IsSubsequence(ReportSales(sales, "today", today, inLastWeek, inLastMonth), sales)
  {
    var keep := (s: Sale) => s.date == today;
    forall x ensures multiset(Filter(sales, keep))[x] == if x.date == today then multiset(sales)[x] else 0 {
      FilterMultiset(sales, keep, x);
    }
    FilterIsSubsequence(sales, keep);
  }

  /** "all", and any period the switch does not name, keeps the whole ledger unchanged. */
  lemma ReportAll(sales: seq<Sale>, period: string, today: string,
                  inLastWeek: string -> bool, inLastMonth: string -> bool)
    requires period != "today" && period != "week" && period != "month"
    ensures ReportSales(sales, period, today, inLastWeek, inLastMonth) == sales
  {
  }

  datatype Summary = Summary(totalRevenue: real, totalItems: int, topProduct: string)

  /**
   * The three summary cards of the report page over the filtered sales. Revenue
   * and items sold run over every sale, dangling ones included; the top
   * product is "None" when no sale resolves to a product.
   */
  function ReportSummary(sales: seq<Sale>, products: seq<Product>): (r: Summary)
    ensures r.totalRevenue == Revenue(sales)
    ensures r.totalItems == ItemsSold(sales)
    ensures (forall k :: 0 <= k < |sales| ==> !Resolves(products, sales[k])) ==> r.topProduct == NoTopProduct
  {
    TallyEmpty(sales, products);
    var ranked := SortByQuantity(Tally(sales, products));
    Summary(Revenue(sales), ItemsSold(sales), if |ranked| == 0 then NoTopProduct else ranked[0].name)
  }

  /** The tally is empty exactly when no sale resolves to a product. */
  lemma TallyEmpty(sales: seq<Sale>, products: seq<Product>)
    ensures |Tally(sales, products)| == 0 <==> forall k :: 0 <= k < |sales| ==> !Resolves(products, sales[k])
  {
    var t := Tally(sales, products);
    if |t| > 0 {
      TallyKey(sales, products, t[0].name);
    }
    if exists k :: 0 <= k < |sales| && Resolves(products, sales[k]) {
      var k :| 0 <= k < |sales| && Resolves(products, sales[k]);
      TallyKey(sales, products, ProductOf(products, sales[k]).name);
    }
  }

  /** The head of a non-empty ranking is an entry of the tally, with its name's reference quantity. */
  lemma RankedHead(sales: seq<Sale>, products: seq<Product>)
    requires |Tally(sales, products)| > 0
    ensures |SortByQuantity(Tally(sales, products))| > 0
    ensures SortByQuantity(Tally(sales, products))[0].quantity ==
            NamedQuantity(sales, products, SortByQuantity(Tally(sales, products))[0].name)
    ensures exists k :: 0 <= k < |sales| && SoldAs(products, SortByQuantity(Tally(sales, products))[0].name, sales[k])
  {
    var t := Tally(sales, products);
    var top := SortByQuantity(t)[0];
    TallyDistinct(sales, products);
    TallyQuantities(sales, products);
    assert top in multiset(t);
    var j :| 0 <= j < |t| && t[j] == top;
    LookupAt(t, j);
    TallyKey(sales, products, top.name);
  }

  /** No name a sale resolves to was sold more than the head of the ranking. */
  lemma RankedHeadIsMaximal(sales: seq<Sale>, products: seq<Product>, k: int)
    requires 0 <= k < |sales| && Resolves(products, sales[k])
    ensures |SortByQuantity(Tally(sales, products))| > 0
    ensures NamedQuantity(sales, products, ProductOf(products, sales[k]).name) <=
            SortByQuantity(Tally(sales, products))[0].quantity
  {
    var t := Tally(sales, products);
    var ranked := SortByQuantity(t);
    var m := ProductOf(products, sales[k]).name;
    TallyDistinct(sales, products);
    TallyQuantities(sales, products);
    TallyKey(sales, products, m);
    var i := NameIndex(t, m).value;
    LookupAt(t, i);
    assert t[i] in multiset(ranked);
    var p :| 0 <= p < |ranked| && ranked[p] == t[i];
    if p > 0 { assert ranked[0].quantity >= ranked[p].quantity; }
  }

  /**
   * The top-product card: "None" when no sale resolves; otherwise the head of
   * the ranking, a name some sale resolves to, and no product sold under
   * another name sold more.
   */
  lemma ReportTopProduct(sales: seq<Sale>, products: seq<Product>)
    ensures (forall k :: 0 <= k < |sales| ==> !Resolves(products, sales[k])) ==>
              ReportSummary(sales, products).topProduct == NoTopProduct
    ensures (exists k :: 0 <= k < |sales| && Resolves(products, sales[k])) ==>
              |TopProducts(sales, products, 1)| == 1 &&
              ReportSummary(sales, products).topProduct == TopProducts(sales, products, 1)[0].name
    ensures (exists k :: 0 <= k < |sales| && Resolves(products, sales[k])) ==>
              exists k :: 0 <= k < |sales| && SoldAs(products, ReportSummary(sales, products).topProduct, sales[k])
    ensures forall k :: 0 <= k < |sales| && Resolves(products, sales[k]) ==>
              NamedQuantity(sales, products, ProductOf(products, sales[k]).name) <=
              NamedQuantity(sales, products, ReportSummary(sales, products).topProduct)
  {
    TallyEmpty(sales, products);
    if |Tally(sales, products)| > 0 {
      var ranked := SortByQuantity(Tally(sales, products));
      RankedHead(sales, products);
      assert TopProducts(sales, products, 1) == ranked[..1] == [ranked[0]];
      assert ReportSummary(sales, products).topProduct == ranked[0].name;
      forall k | 0 <= k < |sales| && Resolves(products, sales[k])
        ensures NamedQuantity(sales, products, ProductOf(products, sales[k]).name) <=
                NamedQuantity(sales, products, ReportSummary(sales, products).topProduct)
      {
        RankedHeadIsMaximal(sales, products, k);
      }
    }
  }
}
