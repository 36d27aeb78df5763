/**
 * Catalog maintenance: adding a product, saving an edit over the record with
 * the edited id (the id itself is kept), and deleting by id.
 */
module Catalog {
  import opened Wrappers
  import opened Records

  /** `Math.max(0, Math.min(100, d))`: the discount a form stores. */
  function ClampDiscount(d: real): (r: real)
    ensures 0.0 <= r <= 100.0
    ensures 0.0 <= d <= 100.0 ==> r == d
    ensures d < 0.0 ==> r == 0.0
    ensures d > 100.0 ==> r == 100.0
  {
    if d < 0.0 then 0.0 else if d > 100.0 then 100.0 else d
  }

  /** The record the add form creates; `id` is the creation timestamp. */
  function NewProduct(id: int, name: string, price: real, category: string, stock: int, discount: real): (p: Product)
    ensures p.id == id && p.name == name && p.price == price && p.category == category && p.stock == stock
    ensures p.discount == ClampDiscount(discount) && 0.0 <= p.discount <= 100.0
  {
    Product(id, name, price, category, stock, ClampDiscount(discount))
  }

  /**
   * Saving the edit form: the first product with the id gets the new name,
   * price, category, stock and clamped discount and keeps its id; when no
   * product has the id nothing is saved.
   */
  function EditProduct(products: seq<Product>, id: int, name: string, price: real, category: string,
                       stock: int, discount: real): (r: Option<seq<Product>>)
    ensures r.None? <==> forall j :: 0 <= j < |products| ==> products[j].id != id
    ensures r.Some? ==>
              var i := FindProduct(products, id).value;
              |r.value| == |products| &&
              r.value[i] == Product(products[i].id, name, price, category, stock, ClampDiscount(discount)) &&
              r.value[i].id == id &&
              forall j :: 0 <= j < |products| && j != i ==> r.value[j] == products[j]
  {
    match FindProduct(products, id)
    case None => None
    case Some(i) =>
      Some(products[i := products[i].(name := name, price := price, category := category,
                                      stock := stock, discount := ClampDiscount(discount))])
  }

  /** Deleting keeps every product whose id differs. */
  function DeleteProduct(products: seq<Product>, id: int): (r: seq<Product>)
    ensures |r| <= |products|
    ensures forall p :: p in r <==> p in products && p.id != id
  {
    Filter(products, (p: Product) => p.id != id)
  }

  /**
   * After a delete no product has the id, every product with another id is
   * still there as often as before, and the catalog keeps its order.
   */
  lemma DeleteProductSpec(products: seq<Product>, id: int)
    ensures forall p :: p in DeleteProduct(products, id) ==> p.id != id
    ensures forall p: Product :: p.id != id ==> multiset(DeleteProduct(products, id))[p] == multiset(products)[p]
    ensures forall p: Product :: p.id == id ==> multiset(DeleteProduct(products, id))[p] == 0
    ensures IsSubsequence(DeleteProduct(products, id), products)
    ensures FindProduct(DeleteProduct(products, id), id).None?
  {
    var keep := (p: Product) => p.id != id;
    forall p ensures multiset(Filter(products, keep))[p] == if p.id != id then multiset(products)[p] else 0 {
      FilterMultiset(products, keep, p);
    }
    FilterIsSubsequence(products, keep);
  }
}
