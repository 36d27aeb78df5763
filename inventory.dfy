/**
 * The application state: the three persisted collections, held as sequences
 * that the handlers read and write back. Each method is one event handler's
 * read-modify-write of storage; `RecordSale`, `Signup` and `EditProduct` do
 * their work step by step and are proved against the specification functions
 * of their components.
 */
module Inventory {
  import opened Wrappers
  import opened Records
  import opened SaleRecorder
  import Accounts
  import Catalog

  class Store {
    var users: seq<User>
    var products: seq<Product>
    var sales: seq<Sale>

    /** Storage that holds nothing yet reads as three empty collections. */
    constructor ()
      ensures users == [] && products == [] && sales == []
    {
      users, products, sales := [], [], [];
    }

    /**
     * `handleRecordSale`: on success the chosen product's stock goes down by
     * the quantity and the sale is pushed onto the ledger; on any refusal
     * neither collection changes.
     */
    method RecordSale(selection: Option<int>, quantity: int, date: string, saleId: int)
      returns (result: Result<Sale, SaleError>)
      modifies this
      ensures var o := SaleRecorder.RecordSale(Ledger(old(products), old(sales)), selection, quantity, date, saleId);
        result == o.result && products == o.ledger.products && sales == o.ledger.sales
      ensures result.Failure? ==> products == old(products) && sales == old(sales)
      ensures result.Success? ==> sales == old(sales) + [result.value] && |products| == |old(products)|
      ensures users == old(users)
    {
      ghost var before := Ledger(products, sales);
      if !Selected(selection) {
        return Failure(NoProductSelected);
      }
      var productId := selection.value;
      var found := FindProduct(products, productId);
      if found.None? {
        return Failure(ProductNotFound);
      }
      var i := found.value;
      var product := products[i];
      if product.stock < quantity {
        return Failure(InsufficientStock);
      }
      var unitPrice := EffectiveUnitPrice(product);
      var sale := Sale(saleId, productId, quantity, unitPrice, unitPrice * quantity as real, date);
      products := products[i := product.(stock := product.stock - quantity)];
      sales := sales + [sale];
      result := Success(sale);
      ghost var o := SaleRecorder.RecordSale(before, selection, quantity, date, saleId);
      assert o.result.value.totalPrice == sale.totalPrice;
    }

    /** `handleSignup`: a new account is pushed onto the users only when the form passes and the name is free. */
    method Signup(id: int, username: string, email: string, emailValid: bool, password: string, confirm: string)
      returns (result: Result<User, Accounts.SignupError>)
      modifies this
      ensures var r := Accounts.Signup(old(users), id, username, email, emailValid, password, confirm);
        (r.Success? ==> users == r.value && result == Success(User(id, username, email, password))) &&
        (r.Failure? ==> users == old(users) && result == Failure(r.error))
      ensures products == old(products) && sales == old(sales)
    {
      var problems: set<Accounts.SignupField> := {};
      if |username| < Accounts.MinUsernameLength {
        problems := problems + {Accounts.UsernameField};
      }
      if !emailValid {
        problems := problems + {Accounts.EmailField};
      }
      var strength, _ := Accounts.CalculatePasswordStrength(password);
      if strength < Accounts.MinSignupScore {
        problems := problems + {Accounts.PasswordField};
      }
      if password != confirm {
        problems := problems + {Accounts.ConfirmField};
      }
      assert problems == Accounts.SignupProblems(username, emailValid, password, confirm);
      if problems != {} {
        return Failure(Accounts.InvalidFields(problems));
      }
      if Accounts.UsernameTaken(users, username) {
        return Failure(Accounts.DuplicateUsername);
      }
      var user := User(id, username, email, password);
      users := users + [user];
      result := Success(user);
    }

    /** `handleAddProduct`: the new record is pushed onto the catalog. */
    method AddProduct(id: int, name: string, price: real, category: string, stock: int, discount: real)
      modifies this
      ensures products == old(products) + [Catalog.NewProduct(id, name, price, category, stock, discount)]
      ensures users == old(users) && sales == old(sales)
    {
      products := products + [Catalog.NewProduct(id, name, price, category, stock, discount)];
    }

    /** `handleEditProductSave`: the record at the found index is overwritten; no match saves nothing. */
    method EditProduct(id: int, name: string, price: real, category: string, stock: int, discount: real)
      returns (saved: bool)
      modifies this
      ensures var r := Catalog.EditProduct(old(products), id, name, price, category, stock, discount);
        saved == r.Some? && products == (if saved then r.value else old(products))
      ensures users == old(users) && sales == old(sales)
    {
      var found := FindProduct(products, id);
      if found.None? {
        return false;
      }
      var index := found.value;
      var previous := products[index];
      products := products[index := previous.(name := name, price := price, category := category,
                                              stock := stock, discount := Catalog.ClampDiscount(discount))];
      saved := true;
    }

    /** `deleteProduct` after its confirmation: every product with the id goes. */
    method DeleteProduct(id: int)
      modifies this
      ensures products == Catalog.DeleteProduct(old(products), id)
      ensures users == old(users) && sales == old(sales)
    {
      products := Catalog.DeleteProduct(products, id);
    }

    /** Clearing the catalog (after the PIN check). */
    method ClearProducts()
      modifies this
      ensures products == [] && users == old(users) && sales == old(sales)
    {
      products := [];
    }

    /** Clearing the sales ledger (after the PIN check). */
    method ClearSales()
      modifies this
      ensures sales == [] && users == old(users) && products == old(products)
    {
      sales := [];
    }

    /** Clearing all storage (after the PIN check). */
    method ClearAll()
      modifies this
      ensures users == [] && products == [] && sales == []
    {
      users, products, sales := [], [], [];
    }
  }
}
