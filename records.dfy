/**
 * The three persisted entities of the inventory tool (users, products, sales),
 * and the lookups every component shares: finding a product by id (the first
 * match, as `Array.prototype.find` returns) and keeping the elements of a
 * sequence that satisfy a predicate (as `Array.prototype.filter` does).
 */
module Records {
  import opened Wrappers

  /** A registered account; the password is stored and compared as plain text. */
  datatype User = User(id: int, username: string, email: string, password: string)

  /** A catalog entry. `discount` is a percentage; an absent discount is 0. */
  datatype Product = Product(id: int, name: string, price: real, category: string,
                             stock: int, discount: real)

  /** A ledger entry; its prices are frozen when the sale is recorded. */
  datatype Sale = Sale(id: int, productId: int, quantity: int, unitPrice: real,
                       totalPrice: real, date: string)

  /** The index of the first product whose id is `id`, if there is one. */
  function FindProduct(products: seq<Product>, id: int): (r: Option<nat>)
    ensures r.Some? ==> r.value < |products| && products[r.value].id == id
    ensures r.Some? ==> forall j :: 0 <= j < r.value ==> products[j].id != id
    ensures r.None? <==> forall j :: 0 <= j < |products| ==> products[j].id != id
  {
    if |products| == 0 then None
    else if products[0].id == id then Some(0)
    else match FindProduct(products[1..], id)
      case None => None
      case Some(i) => Some(i + 1)
  }

  /** Whether a sale's product id resolves to a product in the catalog. */
  predicate Resolves(products: seq<Product>, sale: Sale)
  {
    FindProduct(products, sale.productId).Some?
  }

  /** The product a resolving sale refers to. */
  function ProductOf(products: seq<Product>, sale: Sale): (p: Product)
    requires Resolves(products, sale)
    ensures p in products && p.id == sale.productId
  {
    products[FindProduct(products, sale.productId).value]
  }

  /** The elements of `s` that satisfy `keep`, in their original order. */
  function Filter<T(!new)>(s: seq<T>, keep: T -> bool): (r: seq<T>)
    ensures |r| <= |s|
    ensures forall x :: x in r <==> x in s && keep(x)
  {
    if |s| == 0 then []
    else (if keep(s[0]) then [s[0]] else []) + Filter(s[1..], keep)
  }

  /** `sub` is `s` with some elements left out and the rest kept in their order. */
  predicate IsSubsequence<T(==)>(sub: seq<T>, s: seq<T>)
    decreases |s|
  {
    if |sub| == 0 then true
    else if |s| == 0 then false
    else (sub[0] == s[0] && IsSubsequence(sub[1..], s[1..])) || IsSubsequence(sub, s[1..])
  }

  /** Filtering keeps order: its result is a subsequence of its input. */
  lemma {:induction false} FilterIsSubsequence<T(!new)>(s: seq<T>, keep: T -> bool)
    ensures IsSubsequence(Filter(s, keep), s)
  {
    if |s| > 0 {
      FilterIsSubsequence(s[1..], keep);
      if keep(s[0]) {
        assert Filter(s, keep) == [s[0]] + Filter(s[1..], keep);
        assert Filter(s, keep)[1..] == Filter(s[1..], keep);
      } else {
        assert Filter(s, keep) == Filter(s[1..], keep);
      }
    }
  }

  /** A filter whose predicate holds everywhere gives back its input unchanged. */
  lemma {:induction false} FilterAll<T(!new)>(s: seq<T>, keep: T -> bool)
    requires forall x :: x in s ==> keep(x)
    ensures Filter(s, keep) == s
  {
    if |s| > 0 {
      assert forall x :: x in s[1..] ==> x in s;
      FilterAll(s[1..], keep);
    }
  }

  /** Filtering distributes over concatenation. */
  lemma {:induction false} FilterAppend<T(!new)>(s: seq<T>, t: seq<T>, keep: T -> bool)
    ensures Filter(s + t, keep) == Filter(s, keep) + Filter(t, keep)
  {
    if |s| == 0 {
      assert s + t == t;
    } else {
      assert (s + t)[1..] == s[1..] + t;
      FilterAppend(s[1..], t, keep);
    }
  }

  /** Filtering keeps every kept element as often as it occurs and drops the others entirely. */
  lemma {:induction false} FilterMultiset<T(!new)>(s: seq<T>, keep: T -> bool, x: T)
    ensures multiset(Filter(s, keep))[x] == if keep(x) then multiset(s)[x] else 0
  {
    if |s| > 0 {
      assert s == [s[0]] + s[1..];
      FilterMultiset(s[1..], keep, x);
    }
  }
}
