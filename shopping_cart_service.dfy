/** The cart service: the repositories it writes through are fields of the
    class, and each operation changes them step by step as the service does,
    proved to leave the store exactly as the functions of CartEngine say. */
module ShoppingCartServiceImpl {
  import opened Wrappers
  import opened CartStore
  import opened CartEngine
  import opened CartInvariants

  class ShoppingCartService {
    /** Ids known to the customer repository. */
    var customers: set<CustomerId>
    /** Ids known to the product repository. */
    var products: set<ProductId>
    /** The cart repository, each cart with its cascaded line items. */
    var carts: map<CartId, ShoppingCart>
    /** The order in which the cart repository returns carts. */
    var order: seq<CartId>
    /** The identity the next saved cart receives. */
    var nextCartId: CartId

    function Model(): Store
      reads this
    {
      Store(customers, products, carts, order, nextCartId)
    }

    ghost predicate Valid()
      reads this
    {
      Wf(Model())
    }

    /** A store with the given customers and products and no carts yet. */
    constructor (customers: set<CustomerId>, products: set<ProductId>)
      ensures Valid()
      ensures Model() == Store(customers, products, map[], [], 1)
    {
      this.customers := customers;
      this.products := products;
      carts := map[];
      order := [];
      nextCartId := 1;
    }

    method AddProductToCart(customer: CustomerId, cartId: Option<CartId>, product: ProductId, quantity: int)
      returns (r: Result<StatusResponse, Error>)
      requires Valid()
      modifies this
      ensures Valid()
      ensures r.Success? <==> Add(old(Model()), customer, cartId, product, quantity).Success?
      ensures r.Success? ==> Add(old(Model()), customer, cartId, product, quantity) == Success((Model(), r.value))
      ensures r.Failure? ==> Add(old(Model()), customer, cartId, product, quantity) == Failure(r.error)
      ensures r.Failure? ==> Model() == old(Model())
      ensures NoEmptyCart(old(Model())) ==> NoEmptyCart(Model())
    {
      ghost var before := Model();
      var check := ValidateInput(Model(), customer, cartId, product, quantity);
      if check.Fail? {
        return Failure(InvalidInput(check.error));
      }
      // where the transaction started: restored if a later step throws
      var startCarts, startOrder, startNext := carts, order, nextCartId;
      var k: CartId;
      if cartId.Some? {
        if cartId.value !in carts {
          return Failure(InvalidInput(CartNotFound));
        }
        k := cartId.value;
      } else {
        if customer !in customers {
          return Failure(InvalidInput(CustomerNotFound));
        }
        // save the new cart so that it has an identity
        k := nextCartId;
        carts := carts[k := ShoppingCart(customer, [])];
        order := order + [k];
        nextCartId := nextCartId + 1;
      }
      assert ResolveCart(before, customer, cartId) == Success((Model(), k));
      if product !in products {
        carts, order, nextCartId := startCarts, startOrder, startNext;
        return Failure(InvalidInput(ProductNotFound));
      }
      SaveLine(k, product, quantity);
      AddPreservesWf(before, customer, cartId, product, quantity);
      if NoEmptyCart(before) {
        AddKeepsNoEmptyCart(before, customer, cartId, product, quantity);
      }
      r := Success(StatusResponse(CREATED, AddedMessage(product, customer), 0));
    }

    /** Raises the line of cart `k` for `product` by `quantity`, or saves a
        new line for it when the cart has none. */
    method SaveLine(k: CartId, product: ProductId, quantity: int)
      requires k in carts
      modifies this
      ensures Model() == old(Model()).(carts := old(carts)[k := MergeLine(old(carts[k]), product, quantity)])
    {
      var cart := carts[k];
      var line := LineIndex(cart.items, product);
      if line.Some? {
        var j := line.value;
        carts := carts[k := cart.(items := cart.items[j := cart.items[j].(quantity := cart.items[j].quantity + quantity)])];
      } else {
        carts := carts[k := cart.(items := cart.items + [CartItem(product, quantity)])];
      }
    }

    method RemoveProductFromCart(customer: CustomerId, product: ProductId, quantity: int)
      returns (r: Outcome<Error>)
      requires Valid()
      modifies this
      ensures Valid()
      ensures r.Pass? <==> Remove(old(Model()), customer, product, quantity).Success?
      ensures r.Pass? ==> Remove(old(Model()), customer, product, quantity) == Success(Model())
      ensures r.Fail? ==> Remove(old(Model()), customer, product, quantity) == Failure(r.error)
      ensures r.Fail? ==> Model() == old(Model())
      ensures NoEmptyCart(old(Model())) ==> NoEmptyCart(Model())
      ensures OneCartPerProduct(old(Model())) ==> OneCartPerProduct(Model())
    {
      if quantity <= 0 {
        return Fail(Runtime(QuantityNotPositive));
      }
      ghost var before := Model();
      var customerCarts := CustomerCarts(Model(), customer);
      if |customerCarts| == 0 {
        return Fail(Runtime(NoCartsForCustomer));
      }
      var productFound := false;
      var i := 0;
      while i < |customerCarts|
        invariant 0 <= i <= |customerCarts|
        invariant !productFound && Model() == before
        invariant forall j :: 0 <= j < i ==> !Holds(carts, customerCarts[j], product)
      {
        var k := customerCarts[i];
        assert k in carts by { assert k in customerCarts; }
        var line := LineIndex(carts[k].items, product);
        if line.Some? {
          productFound := true;
          FirstHoldingAt(before.carts, customerCarts, product, i);
          TakeFromCart(k, line.value, product, quantity);
          RemoveKeepsRules(before, customer, product, quantity);
          break;
        }
        i := i + 1;
      }
      if !productFound {
        assert Remove(before, customer, product, quantity) == Failure(Runtime(ProductNotInAnyCart)) by {
          assert FirstHolding(carts, customerCarts, product).None?;
        }
        return Fail(Runtime(ProductNotInAnyCart));
      }
      r := Pass;
    }

    /** The found branch of `removeProductFromCart`: line `j` of cart `k` is
        the line for `product`. */
    method TakeFromCart(k: CartId, j: nat, product: ProductId, quantity: int)
      requires Valid() && quantity > 0
      requires k in carts && LineIndex(carts[k].items, product) == Some(j)
      modifies this
      ensures Valid()
      ensures Model() == RemoveFromCart(old(Model()), k, product, quantity)
    {
      if carts[k].items[j].quantity <= quantity {
        DeleteLineAndCart(k, j);
      } else {
        LowerLine(k, j, quantity);
      }
    }

    /** Deletes line `j` of cart `k`, then cart `k` itself. */
    method DeleteLineAndCart(k: CartId, j: nat)
      requires Valid()
      requires k in carts && j < |carts[k].items|
      modifies this
      ensures Valid()
      ensures Model() == DropCart(old(Model()), k)
    {
      ghost var before := Model();
      var cart := carts[k];
      carts := carts[k := cart.(items := cart.items[..j] + cart.items[j + 1..])];
      carts := carts - {k};
      order := Without(order, k);
      assert carts == before.carts - {k};
      DropCartWf(before, k);
    }

    /** Lowers line `j` of cart `k` by `quantity`, which is less than it holds. */
    method LowerLine(k: CartId, j: nat, quantity: int)
      requires Valid()
      requires k in carts && j < |carts[k].items|
      requires 0 < quantity < carts[k].items[j].quantity
      modifies this
      ensures Valid()
      ensures var items := old(carts[k].items);
        Model() == old(Model()).(carts := old(carts)[k := old(carts[k]).(items := items[j := items[j].(quantity := items[j].quantity - quantity)])])
    {
      ghost var before := Model();
      var cart := carts[k];
      carts := carts[k := cart.(items := cart.items[j := cart.items[j].(quantity := cart.items[j].quantity - quantity)])];
      DecrementLineWf(before, k, j, quantity);
    }

    method DeleteCart(cartId: CartId) returns (r: Outcome<Error>)
      requires Valid()
      modifies this
      ensures Valid()
      ensures r.Pass? <==> Delete(old(Model()), cartId).Success?
      ensures r.Pass? ==> Delete(old(Model()), cartId) == Success(Model())
      ensures r.Fail? ==> Delete(old(Model()), cartId) == Failure(r.error)
      ensures r.Fail? ==> Model() == old(Model())
      ensures NoEmptyCart(old(Model())) ==> NoEmptyCart(Model())
      ensures OneCartPerProduct(old(Model())) ==> OneCartPerProduct(Model())
    {
      if cartId !in carts {
        return Fail(Runtime(CartNotFound));
      }
      ghost var before := Model();
      var cart := carts[cartId];
      // delete the cart's line items, then the cart
      carts := carts[cartId := cart.(items := [])];
      carts := carts - {cartId};
      order := Without(order, cartId);
      assert carts == before.carts - {cartId};
      assert Model() == DropCart(before, cartId);
      DeletePreservesWf(before, cartId);
      DeleteKeepsRules(before, cartId);
      r := Pass;
    }
  }
}
