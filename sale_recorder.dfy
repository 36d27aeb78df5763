/**
 * The sale recorder: look the chosen product up, refuse a missing selection,
 * a missing product or a quantity above its stock, and otherwise freeze the
 * discounted unit price into a new sale, take the quantity off the product's
 * stock and append the sale to the ledger.
 */
module SaleRecorder {
  import opened Wrappers
  import opened Records
  import opened Dashboard

  datatype SaleError = NoProductSelected | ProductNotFound | InsufficientStock

  /** The collections a sale touches. */
  datatype Ledger = Ledger(products: seq<Product>, sales: seq<Sale>)

  /** The ledger after an attempt, and the sale recorded or the reason for refusing. */
  datatype Outcome = Outcome(ledger: Ledger, result: Result<Sale, SaleError>)

  /** The discount percentage a sale applies: the product's, when it is positive. */
  function AppliedDiscount(p: Product): real
  {
    if p.discount > 0.0 then p.discount else 0.0
  }

  /** The product's price less its applied discount. */
  function EffectiveUnitPrice(p: Product): real
  {
    p.price * (1.0 - AppliedDiscount(p) / 100.0)
  }

  /**
   * A discount within 0..100 on a non-negative price yields a unit price
   * between 0 and the list price, and no discount leaves the price as listed.
   */
  lemma EffectiveUnitPriceBounds(p: Product)
    requires p.price >= 0.0 && p.discount <= 100.0
    ensures 0.0 <= EffectiveUnitPrice(p) <= p.price
    ensures p.discount <= 0.0 ==> EffectiveUnitPrice(p) == p.price
  {
    var d := AppliedDiscount(p);
    assert 0.0 <= d <= 100.0;
    assert 0.0 <= 1.0 - d / 100.0 <= 1.0;
    assert p.price * (1.0 - d / 100.0) <= p.price * 1.0;
  }

  /** The product id a form selection stands for; no selection and id 0 both count as none. */
  predicate Selected(selection: Option<int>)
  {
    selection.Some? && selection.value != 0
  }

  /** The whole transaction on the two collections. */
  function RecordSale(ledger: Ledger, selection: Option<int>, quantity: int, date: string, saleId: int): (o: Outcome)
    ensures o.result == Failure(NoProductSelected) <==> !Selected(selection)
    ensures o.result == Failure(ProductNotFound) <==>
              Selected(selection) && FindProduct(ledger.products, selection.value).None?
    ensures o.result == Failure(InsufficientStock) <==>
              Selected(selection) && FindProduct(ledger.products, selection.value).Some? &&
              ledger.products[FindProduct(ledger.products, selection.value).value].stock < quantity
    ensures o.result.Failure? ==> o.ledger == ledger
    ensures o.result.Success? ==>
              Selected(selection) && FindProduct(ledger.products, selection.value).Some? &&
              var i := FindProduct(ledger.products, selection.value).value;
              var p := ledger.products[i];
              var sale := o.result.value;
              quantity <= p.stock &&
              |o.ledger.products| == |ledger.products| &&
              o.ledger.products[i] == p.(stock := p.stock - quantity) &&
              o.ledger.products[i].stock >= 0 &&
              (forall j :: 0 <= j < |ledger.products| && j != i ==> o.ledger.products[j] == ledger.products[j]) &&
              o.ledger.sales == ledger.sales + [sale] &&
              sale == Sale(saleId, p.id, quantity, EffectiveUnitPrice(p), EffectiveUnitPrice(p) * quantity as real, date)
  {
    if !Selected(selection) then Outcome(ledger, Failure(NoProductSelected))
    else
      match FindProduct(ledger.products, selection.value)
      case None => Outcome(ledger, Failure(ProductNotFound))
      case Some(i) =>
        var p := ledger.products[i];
        if p.stock < quantity then Outcome(ledger, Failure(InsufficientStock))
        else
          var unit := EffectiveUnitPrice(p);
          var sale := Sale(saleId, selection.value, quantity, unit, unit * quantity as real, date);
          Outcome(Ledger(ledger.products[i := p.(stock := p.stock - quantity)], ledger.sales + [sale]), Success(sale))
  }

  predicate StockNonNegative(products: seq<Product>)
  {
    forall i :: 0 <= i < |products| ==> products[i].stock >= 0
  }

  /** Recording a sale never drives a stock below zero. */
  lemma RecordSaleKeepsStock(ledger: Ledger, selection: Option<int>, quantity: int, date: string, saleId: int)
    requires StockNonNegative(ledger.products)
    ensures StockNonNegative(RecordSale(ledger, selection, quantity, date, saleId).ledger.products)
  {
    var o := RecordSale(ledger, selection, quantity, date, saleId);
    if o.result.Success? {
      var i := FindProduct(ledger.products, selection.value).value;
      forall j | 0 <= j < |o.ledger.products| ensures o.ledger.products[j].stock >= 0 {
        if j != i { assert o.ledger.products[j] == ledger.products[j]; }
      }
    }
  }

  /** Units on hand across the catalog. */
  function TotalStock(products: seq<Product>): int
  {
    if |products| == 0 then 0 else products[0].stock + TotalStock(products[1..])
  }

  lemma {:induction false} TotalStockUpdate(products: seq<Product>, i: nat, p: Product)
    requires i < |products|
    ensures TotalStock(products[i := p]) == TotalStock(products) - products[i].stock + p.stock
  {
    if i > 0 {
      TotalStockUpdate(products[1..], i - 1, p);
      assert products[i := p][1..] == products[1..][i - 1 := p];
    } else {
      assert products[i := p][1..] == products[1..];
    }
  }

  /**
   * A recorded sale moves exactly its quantity out of stock and adds exactly
   * its total to the revenue and one order to the count; a refused one moves
   * nothing.
   */
  lemma RecordSaleConservation(ledger: Ledger, selection: Option<int>, quantity: int, date: string, saleId: int)
    ensures var o := RecordSale(ledger, selection, quantity, date, saleId);
      if o.result.Success? then
        TotalStock(o.ledger.products) == TotalStock(ledger.products) - quantity &&
        Revenue(o.ledger.sales) == Revenue(ledger.sales) + o.result.value.totalPrice &&
        |o.ledger.sales| == |ledger.sales| + 1
      else
        TotalStock(o.ledger.products) == TotalStock(ledger.products) &&
        Revenue(o.ledger.sales) == Revenue(ledger.sales)
  {
    var o := RecordSale(ledger, selection, quantity, date, saleId);
    if o.result.Success? {
      var i := FindProduct(ledger.products, selection.value).value;
      var p := ledger.products[i];
      TotalStockUpdate(ledger.products, i, p.(stock := p.stock - quantity));
      RevenueAppend(ledger.sales, [o.result.value]);
    }
  }

  /** Five in stock at 100 with 10% off, two sold: 90 each, 180 in all, three left. */
  lemma RecordSaleExample()
    ensures var o := RecordSale(Ledger([Product(7, "Rice", 100.0, "Food", 5, 10.0)], []),
                                Some(7), 2, "2024-05-01", 1);
      o.result == Success(Sale(1, 7, 2, 90.0, 180.0, "2024-05-01")) &&
      o.ledger.products[0].stock == 3
  {
  }
}
