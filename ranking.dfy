/**
 * The top-products ranking shared by the dashboard doughnut chart and the
 * report summary: quantities are tallied per product NAME over the sales whose
 * product id resolves (dangling sales are skipped), the tally is sorted by
 * quantity, largest first, and the head of the sorted list is kept.
 *
 * The tally is the source's name-keyed dictionary, kept here as an association
 * list in insertion order; the sort is a stable sort, so ties keep that order.
 */
module Ranking {
  import opened Wrappers
  import opened Records
  import opened Dashboard

  /** How many products the dashboard chart shows. */
  const ChartTopCount: nat := 5

  /** One dictionary entry: a product name and the quantity sold under it. */
  datatype Entry = Entry(name: string, quantity: int)

  /** The position of the entry for `name`, if the tally has one. */
  function NameIndex(t: seq<Entry>, name: string): (r: Option<nat>)
    ensures r.Some? ==> r.value < |t| && t[r.value].name == name
    ensures r.None? <==> forall j :: 0 <= j < |t| ==> t[j].name != name
  {
    if |t| == 0 then None
    else if t[0].name == name then Some(0)
    else match NameIndex(t[1..], name)
      case None => None
      case Some(i) => Some(i + 1)
  }

  /** The dictionary read `productSales[name] || 0`. */
  function Lookup(t: seq<Entry>, name: string): int
  {
    match NameIndex(t, name)
    case Some(i) => t[i].quantity
    case None => 0
  }

  /** The dictionary write `productSales[name] = (productSales[name] || 0) + q`. */
  function Bump(t: seq<Entry>, name: string, q: int): seq<Entry>
  {
    match NameIndex(t, name)
    case Some(i) => t[i := Entry(name, t[i].quantity + q)]
    case None => t + [Entry(name, q)]
  }

  /** A dictionary has at most one entry per key. */
  predicate DistinctNames(t: seq<Entry>)
  {
    forall i, j :: 0 <= i < j < |t| ==> t[i].name != t[j].name
  }

  lemma LookupAt(t: seq<Entry>, j: nat)
    requires DistinctNames(t) && j < |t|
    ensures Lookup(t, t[j].name) == t[j].quantity
  {
    var i := NameIndex(t, t[j].name).value;
    assert i == j;
  }

  /** A dictionary write adds `q` under `name` and leaves every other key as it was. */
  lemma BumpSpec(t: seq<Entry>, name: string, q: int)
    requires DistinctNames(t)
    ensures DistinctNames(Bump(t, name, q))
    ensures forall m :: Lookup(Bump(t, name, q), m) == Lookup(t, m) + (if m == name then q else 0)
    ensures forall m :: NameIndex(Bump(t, name, q), m).Some? <==> NameIndex(t, m).Some? || m == name
  {
    var b := Bump(t, name, q);
    match NameIndex(t, name)
    case Some(i) =>
      assert |b| == |t| && forall j :: 0 <= j < |t| ==> b[j].name == t[j].name;
      forall m ensures Lookup(b, m) == Lookup(t, m) + (if m == name then q else 0) {
        match NameIndex(t, m)
        case Some(j) =>
          LookupAt(t, j);
          LookupAt(b, j);
          assert (j == i) == (m == name);
        case None =>
          assert NameIndex(b, m).None?;
      }
    case None =>
      assert b == t + [Entry(name, q)];
      forall m ensures Lookup(b, m) == Lookup(t, m) + (if m == name then q else 0) {
        match NameIndex(t, m)
        case Some(j) =>
          LookupAt(t, j);
          LookupAt(b, j);
        case None =>
          if m == name {
            LookupAt(b, |t|);
          } else {
            assert NameIndex(b, m).None?;
          }
      }
      forall m | NameIndex(t, m).Some? || m == name ensures NameIndex(b, m).Some? {
        if m == name { assert b[|t|].name == m; } else { assert b[NameIndex(t, m).value].name == m; }
      }
  }

  /** Whether a sale resolves to a product called `name`. */
  predicate SoldAs(products: seq<Product>, name: string, s: Sale)
  {
    Resolves(products, s) && ProductOf(products, s).name == name
  }

  /**
   * Reference definition of a name's quantity: the quantities of the sales that
   * resolve to a product of that name, added up. Dangling sales count for nothing.
   */
  function NamedQuantity(sales: seq<Sale>, products: seq<Product>, name: string): int
  {
    ItemsSold(Filter(sales, (s: Sale) => SoldAs(products, name, s)))
  }

  /** One step of the `forEach`: a resolving sale adds its quantity under its product's name. */
  function Step(t: seq<Entry>, products: seq<Product>, s: Sale): seq<Entry>
  {
    if Resolves(products, s) then Bump(t, ProductOf(products, s).name, s.quantity) else t
  }

  /** The tally after the `forEach` over `sales`, in the order the sales are visited. */
  function Tally(sales: seq<Sale>, products: seq<Product>): seq<Entry>
  {
    if |sales| == 0 then [] else Step(Tally(sales[..|sales| - 1], products), products, sales[|sales| - 1])
  }

  lemma {:induction false} TallyDistinct(sales: seq<Sale>, products: seq<Product>)
    ensures DistinctNames(Tally(sales, products))
  {
    if |sales| > 0 {
      var init, last := sales[..|sales| - 1], sales[|sales| - 1];
      TallyDistinct(init, products);
      if Resolves(products, last) {
        BumpSpec(Tally(init, products), ProductOf(products, last).name, last.quantity);
      }
    }
  }

  /** Each name's entry in the tally is that name's reference quantity. */
  lemma {:induction false} TallyQuantities(sales: seq<Sale>, products: seq<Product>)
    ensures forall m :: Lookup(Tally(sales, products), m) == NamedQuantity(sales, products, m)
  {
    if |sales| > 0 {
      var init, last := sales[..|sales| - 1], sales[|sales| - 1];
      assert sales == init + [last];
      TallyDistinct(init, products);
      TallyQuantities(init, products);
      if Resolves(products, last) {
        BumpSpec(Tally(init, products), ProductOf(products, last).name, last.quantity);
      }
      forall m ensures Lookup(Tally(sales, products), m) == NamedQuantity(sales, products, m) {
        var keep := (s: Sale) => SoldAs(products, m, s);
        FilterAppend(init, [last], keep);
        assert Filter([last], keep) == if keep(last) then [last] else [];
        ItemsSoldAppend(Filter(init, keep), Filter([last], keep));
      }
    }
  }

  /** One step of the `forEach` creates the key `m` exactly when the visited sale is sold as `m`. */
  lemma StepKey(t: seq<Entry>, products: seq<Product>, s: Sale, m: string)
    requires DistinctNames(t)
    ensures NameIndex(Step(t, products, s), m).Some? <==> NameIndex(t, m).Some? || SoldAs(products, m, s)
  {
    if Resolves(products, s) {
      BumpSpec(t, ProductOf(products, s).name, s.quantity);
    }
  }

  /** Some sale of `init + [last]` is sold as `m` exactly when one of `init` is, or `last` is. */
  lemma SoldSomewhereSnoc(init: seq<Sale>, last: Sale, products: seq<Product>, m: string)
    ensures (exists k :: 0 <= k < |init + [last]| && SoldAs(products, m, (init + [last])[k])) <==>
            (exists k :: 0 <= k < |init| && SoldAs(products, m, init[k])) || SoldAs(products, m, last)
  {
    var sales := init + [last];
    if exists k :: 0 <= k < |init| && SoldAs(products, m, init[k]) {
      var k :| 0 <= k < |init| && SoldAs(products, m, init[k]);
      assert sales[k] == init[k];
    }
    if SoldAs(products, m, last) {
      assert sales[|init|] == last;
    }
    if exists k :: 0 <= k < |sales| && SoldAs(products, m, sales[k]) {
      var k :| 0 <= k < |sales| && SoldAs(products, m, sales[k]);
      if k < |init| { assert init[k] == sales[k]; }
    }
  }

  /** The tally has an entry for `m` exactly when some sale resolves to a product called `m`. */
  lemma {:induction false} TallyKey(sales: seq<Sale>, products: seq<Product>, m: string)
    ensures NameIndex(Tally(sales, products), m).Some? <==>
            exists k :: 0 <= k < |sales| && SoldAs(products, m, sales[k])
  {
    if |sales| > 0 {
      var init, last := sales[..|sales| - 1], sales[|sales| - 1];
      assert sales == init + [last];
      TallyDistinct(init, products);
      TallyKey(init, products, m);
      StepKey(Tally(init, products), products, last, m);
      SoldSomewhereSnoc(init, last, products, m);
    }
  }

  /**
   * The source's `forEach` that fills the `productSales` dictionary, one sale
   * at a time.
   */
  method CountSalesByName(sales: seq<Sale>, products: seq<Product>) returns (tally: seq<Entry>)
    ensures tally == Tally(sales, products)
    ensures DistinctNames(tally)
    ensures forall m :: Lookup(tally, m) == NamedQuantity(sales, products, m)
  {
    tally := [];
    var i := 0;
    while i < |sales|
      invariant 0 <= i <= |sales|
      invariant tally == Tally(sales[..i], products)
    {
      var sale := sales[i];
      var found := FindProduct(products, sale.productId);
      if found.Some? {
        tally := Bump(tally, products[found.value].name, sale.quantity);
      }
      assert sales[..i + 1][..i] == sales[..i];
      i := i + 1;
    }
    assert sales[..|sales|] == sales;
    TallyDistinct(sales, products);
    TallyQuantities(sales, products);
  }

  /** Largest quantity first. */
  predicate NonIncreasing(r: seq<Entry>)
  {
    forall i, j :: 0 <= i < j < |r| ==> r[i].quantity >= r[j].quantity
  }

  /** Places `e` before the first entry whose quantity is not larger (so ties keep their order). */
  function Insert(e: Entry, s: seq<Entry>): (r: seq<Entry>)
    ensures multiset(r) == multiset(s) + multiset{e}
  {
    if |s| == 0 then [e]
    else if s[0].quantity <= e.quantity then [e] + s
    else
      assert s == [s[0]] + s[1..];
      [s[0]] + Insert(e, s[1..])
  }

  lemma {:induction false} InsertKeepsOrder(e: Entry, s: seq<Entry>)
    requires NonIncreasing(s)
    ensures NonIncreasing(Insert(e, s))
  {
    if |s| > 0 && s[0].quantity > e.quantity {
      InsertKeepsOrder(e, s[1..]);
      var tail := Insert(e, s[1..]);
      forall x | x in tail ensures x.quantity <= s[0].quantity {
        assert x in multiset(tail);
        if x != e {
          assert x in multiset(s[1..]);
        }
      }
      assert Insert(e, s) == [s[0]] + tail;
    }
  }

  /** The stable sort by `(a, b) => b - a` on quantities. */
  function SortByQuantity(s: seq<Entry>): (r: seq<Entry>)
    ensures multiset(r) == multiset(s)
    ensures NonIncreasing(r)
  {
    if |s| == 0 then []
    else
      assert s == [s[0]] + s[1..];
      InsertKeepsOrder(s[0], SortByQuantity(s[1..]));
      Insert(s[0], SortByQuantity(s[1..]))
  }

  /** The `n` best-selling product names with their quantities. */
  function TopProducts(sales: seq<Sale>, products: seq<Product>, n: nat): seq<Entry>
  {
    var sorted := SortByQuantity(Tally(sales, products));
    sorted[..if n < |sorted| then n else |sorted|]
  }

  /** Every entry of the sorted tally carries its name's reference quantity. */
  lemma SortedQuantities(sales: seq<Sale>, products: seq<Product>)
    ensures forall e :: e in SortByQuantity(Tally(sales, products)) ==>
              e.quantity == NamedQuantity(sales, products, e.name)
  {
    var t := Tally(sales, products);
    var sorted := SortByQuantity(t);
    TallyDistinct(sales, products);
    TallyQuantities(sales, products);
    forall e | e in sorted ensures e.quantity == NamedQuantity(sales, products, e.name) {
      assert e in multiset(sorted);
      assert e in t;
      var j :| 0 <= j < |t| && t[j] == e;
      LookupAt(t, j);
    }
  }

  /** An entry of the tally missing from a prefix of the sorted tally is sold no more than any entry of the prefix. */
  lemma LeftOutSoldLess(t: seq<Entry>, count: nat, e: Entry, k: int)
    requires count <= |SortByQuantity(t)|
    requires e in t && e !in SortByQuantity(t)[..count] && 0 <= k < count
    ensures e.quantity <= SortByQuantity(t)[k].quantity
  {
    var sorted := SortByQuantity(t);
    assert e in multiset(t);
    assert e in sorted;
    var j :| 0 <= j < |sorted| && sorted[j] == e;
    if j < count {
      assert false;
    }
  }

  /**
   * The ranking keeps the first `n` of the sorted tally: `n` entries, or
   * every entry when there are fewer, all taken from the tally, largest first, each with its name's reference quantity, and no entry left
   * out sold more than any entry kept.
   */
  lemma TopProductsSpec(sales: seq<Sale>, products: seq<Product>, n: nat)
    ensures |TopProducts(sales, products, n)| ==
            if n < |Tally(sales, products)| then n else |Tally(sales, products)|
    ensures forall e :: e in TopProducts(sales, products, n) ==> e in Tally(sales, products)
    ensures NonIncreasing(TopProducts(sales, products, n))
    ensures forall k :: 0 <= k < |TopProducts(sales, products, n)| ==>
              TopProducts(sales, products, n)[k].quantity ==
              NamedQuantity(sales, products, TopProducts(sales, products, n)[k].name)
    ensures forall e, k ::
              (e in Tally(sales, products) && e !in TopProducts(sales, products, n) &&
               0 <= k < |TopProducts(sales, products, n)|) ==> e.quantity <= TopProducts(sales, products, n)[k].quantity
  {
    var t := Tally(sales, products);
    var sorted := SortByQuantity(t);
    var r := TopProducts(sales, products, n);
    var count := if n < |sorted| then n else |sorted|;
    assert |multiset(sorted)| == |multiset(t)|;
    assert r == sorted[..count];
    forall e | e in r ensures e in t {
      assert e in sorted;
      assert e in multiset(sorted);
    }
    SortedQuantities(sales, products);
    forall k | 0 <= k < |r| ensures r[k].quantity == NamedQuantity(sales, products, r[k].name) {
      assert r[k] == sorted[k];
    }
    forall e, k | e in t && e !in r && 0 <= k < |r| ensures e.quantity <= r[k].quantity {
      LeftOutSoldLess(t, count, e, k);
    }
  }

  /** The series of the dashboard's top-products chart: the five best-selling names, or all when fewer were sold. */
  function ChartTopProducts(sales: seq<Sale>, products: seq<Product>): (r: seq<Entry>)
    ensures |r| == if ChartTopCount < |Tally(sales, products)| then ChartTopCount else |Tally(sales, products)|
    ensures NonIncreasing(r)
    ensures forall e :: e in r ==> e in Tally(sales, products) && e.quantity == NamedQuantity(sales, products, e.name)
    ensures forall e, k :: (e in Tally(sales, products) && e !in r && 0 <= k < |r|) ==> e.quantity <= r[k].quantity
  {
    TopProductsSpec(sales, products, ChartTopCount);
    TopProducts(sales, products, ChartTopCount)
  }

  /** The worked example: B sold 5, A sold 1 + 3. */
  const ExampleSales: seq<Sale> :=
    [Sale(1, 1, 3, 0.0, 0.0, "2024-01-01"), Sale(2, 2, 5, 0.0, 0.0, "2024-01-01"),
     Sale(3, 1, 1, 0.0, 0.0, "2024-01-01")]
  const ExampleProducts: seq<Product> := [Product(1, "A", 0.0, "", 0, 0.0), Product(2, "B", 0.0, "", 0, 0.0)]

  lemma ExampleFirstSale()
    ensures Tally(ExampleSales[..1], ExampleProducts) == [Entry("A", 3)]
  {
    assert ExampleSales[..1][..0] == [];
    assert FindProduct(ExampleProducts, 1) == Some(0);
  }

  lemma ExampleSecondSale()
    ensures Tally(ExampleSales[..2], ExampleProducts) == [Entry("A", 3), Entry("B", 5)]
  {
    ExampleFirstSale();
    assert ExampleSales[..2][..1] == ExampleSales[..1];
    assert FindProduct(ExampleProducts, 2) == Some(1);
    assert NameIndex([Entry("A", 3)], "B") == None;
  }

  lemma ExampleTally()
    ensures Tally(ExampleSales, ExampleProducts) == [Entry("A", 4), Entry("B", 5)]
  {
    ExampleSecondSale();
    assert ExampleSales[..2] == ExampleSales[..|ExampleSales| - 1];
    assert FindProduct(ExampleProducts, 1) == Some(0);
    assert NameIndex([Entry("A", 3), Entry("B", 5)], "A") == Some(0);
  }

  lemma ExampleSort()
    ensures SortByQuantity([Entry("A", 4), Entry("B", 5)]) == [Entry("B", 5), Entry("A", 4)]
  {
    var a4, b5 := Entry("A", 4), Entry("B", 5);
    assert [a4, b5][1..] == [b5] && [b5][1..] == [];
    assert SortByQuantity([b5]) == Insert(b5, []) == [b5];
    assert Insert(a4, [b5]) == [b5] + Insert(a4, []) == [b5, a4];
  }

  /** The top two of the worked example are B, then A. */
  lemma TopProductsExample()
    ensures TopProducts(ExampleSales, ExampleProducts, 2) == [Entry("B", 5), Entry("A", 4)]
  {
    ExampleTally();
    ExampleSort();
  }
}
