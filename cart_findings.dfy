/** Two places where the service does something other than what its own
    rules and comments say. Each is shown on the operation as written by a
    concrete store, next to a corrected operation with the intended property
    proved for every input. */
module CartFindings {
  import opened Wrappers
  import opened CartStore
  import opened CartEngine
  import opened CartInvariants
  import opened CartLaws

  // ---------------------------------------------------------------------
  // Finding 1: an add into another customer's cart skips the cart rule

  /** Customer 1 owns cart 10 with product 42 and cart 20 with product 43. */
  function TwoCartsOfOne(): Store {
    Store({1, 2}, {42, 43},
          map[10 := ShoppingCart(1, [CartItem(42, 1)]), 20 := ShoppingCart(1, [CartItem(43, 1)])],
          [10, 20], 21)
  }

  /** As written: customer 2 names cart 20 and adds product 42. The check
      for other carts looks at customer 2's carts (there are none), the cart
      is found by id alone, and customer 1 ends up with product 42 in two
      carts. */
  lemma AddToForeignCartBreaksOneCartPerProduct()
    ensures Wf(TwoCartsOfOne()) && OneCartPerProduct(TwoCartsOfOne())
    ensures Add(TwoCartsOfOne(), 2, Some(20), 42, 1).Success?
    ensures !OneCartPerProduct(Add(TwoCartsOfOne(), 2, Some(20), 42, 1).value.0)
  {
    TwoCartsOfOneKeepsRules();
    ForeignAddStore();
    var s' := TwoCartsOfOne().(carts := TwoCartsOfOne().carts[20 := ShoppingCart(1, [CartItem(43, 1), CartItem(42, 1)])]);
    assert HasLine(s'.carts[10].items, 42) by { assert s'.carts[10].items[0].product == 42; }
    assert HasLine(s'.carts[20].items, 42) by { assert s'.carts[20].items[1].product == 42; }
  }

  lemma TwoCartsOfOneKeepsRules()
    ensures Wf(TwoCartsOfOne()) && OneCartPerProduct(TwoCartsOfOne())
  {
    var s := TwoCartsOfOne();
    assert Distinct(s.order);
    forall k1, k2, p | (k1 in s.carts && k2 in s.carts && k1 != k2 &&
                        s.carts[k1].customer == s.carts[k2].customer &&
                        HasLine(s.carts[k1].items, p))
      ensures !HasLine(s.carts[k2].items, p)
    {
    }
  }

  /** The store the foreign add leaves: cart 20 gains a line for product 42. */
  lemma ForeignAddStore()
    ensures Add(TwoCartsOfOne(), 2, Some(20), 42, 1).Success?
    ensures Add(TwoCartsOfOne(), 2, Some(20), 42, 1).value.0 ==
      TwoCartsOfOne().(carts := TwoCartsOfOne().carts[20 := ShoppingCart(1, [CartItem(43, 1), CartItem(42, 1)])])
  {
    var s := TwoCartsOfOne();
    assert CustomerCarts(s, 2) == [];
    assert LineIndex([CartItem(43, 1)], 42).None?;
    assert [CartItem(43, 1)] + [CartItem(42, 1)] == [CartItem(43, 1), CartItem(42, 1)];
  }

  /** Corrected: once the input is valid, a cart id that names another
      customer's cart is refused; everything else is the add as written. */
  function AddToOwnCart(s: Store, customer: CustomerId, cartId: Option<CartId>, product: ProductId, quantity: int)
    : (r: Result<(Store, StatusResponse), Error>)
    ensures r.Failure? ==> r.error.InvalidInput?
    ensures cartId.None? ==> r == Add(s, customer, cartId, product, quantity)
    ensures cartId.Some? && cartId.value in s.carts && s.carts[cartId.value].customer == customer ==>
      r == Add(s, customer, cartId, product, quantity)
    ensures cartId.Some? && cartId.value in s.carts && s.carts[cartId.value].customer != customer ==> r.Failure?
  {
    if ValidateInput(s, customer, cartId, product, quantity).Pass? &&
       cartId.Some? && cartId.value in s.carts && s.carts[cartId.value].customer != customer
    then Failure(InvalidInput(CartOfOtherCustomer))
    else Add(s, customer, cartId, product, quantity)
  }

  /** The corrected add keeps the store well-formed and keeps every product
      in at most one cart per customer. */
  lemma AddToOwnCartKeepsRules(s: Store, customer: CustomerId, cartId: Option<CartId>, product: ProductId, quantity: int)
    requires Wf(s) && OneCartPerProduct(s)
    requires AddToOwnCart(s, customer, cartId, product, quantity).Success?
    ensures Wf(AddToOwnCart(s, customer, cartId, product, quantity).value.0)
    ensures OneCartPerProduct(AddToOwnCart(s, customer, cartId, product, quantity).value.0)
  {
    AddPreservesWf(s, customer, cartId, product, quantity);
    AddToOwnCartKeepsOneCartPerProduct(s, customer, cartId, product, quantity);
  }

  /** On the store of the counterexample the corrected add refuses. */
  lemma AddToOwnCartRefusesForeignCart()
    ensures AddToOwnCart(TwoCartsOfOne(), 2, Some(20), 42, 1) == Failure(InvalidInput(CartOfOtherCustomer))
  {
    assert CustomerCarts(TwoCartsOfOne(), 2) == [];
  }

  // ---------------------------------------------------------------------
  // Finding 2: removing one product's line deletes the whole cart

  /** The quantity of `p` held in cart `k`; zero when there is no such cart. */
  function Held(s: Store, k: CartId, p: ProductId): int {
    if k in s.carts then QuantityOf(s.carts[k].items, p) else 0
  }

  /** Customer 1 owns cart 10 with one of product 42 and two of product 43. */
  function MixedCart(): Store {
    Store({1}, {42, 43}, map[10 := ShoppingCart(1, [CartItem(42, 1), CartItem(43, 2)])], [10], 11)
  }

  /** As written: removing the one item of product 42 deletes cart 10, and
      the two items of product 43 go with it, although the cart was not
      left without items. */
  lemma RemoveLastOfOneProductDropsOthers()
    ensures Wf(MixedCart())
    ensures Remove(MixedCart(), 1, 42, 1).Success?
    ensures Held(MixedCart(), 10, 43) == 2
    ensures Held(Remove(MixedCart(), 1, 42, 1).value, 10, 43) == 0
  {
    var s := MixedCart();
    assert CustomerCarts(s, 1) == [10];
    assert Holds(s.carts, 10, 42) by { assert s.carts[10].items[0].product == 42; }
    assert FirstHolding(s.carts, [10], 42) == Some(0);
    assert LineIndex(s.carts[10].items, 43) == Some(1);
  }

  /** Corrected cart-level effect: a line with no more than `quantity` is
      deleted, and the cart goes only when that leaves it without lines. */
  function RemoveLineFromCart(s: Store, k: CartId, p: ProductId, quantity: int): (r: Store)
    requires Holds(s.carts, k, p)
    ensures r.customers == s.customers && r.products == s.products && r.nextCartId == s.nextCartId
    ensures r.carts.Keys <= s.carts.Keys
    ensures forall k' :: k' in r.carts && k' != k ==> r.carts[k'] == s.carts[k']
    ensures k !in r.carts ==> |s.carts[k].items| == 1
  {
    var items := s.carts[k].items;
    var j := LineIndex(items, p).value;
    if items[j].quantity <= quantity then
      var rest := items[..j] + items[j + 1..];
      if |rest| == 0 then DropCart(s, k)
      else s.(carts := s.carts[k := s.carts[k].(items := rest)])
    else RemoveFromCart(s, k, p, quantity)
  }

  /** Corrected remove: the same checks and the same cart as the remove as
      written, with the corrected effect on that cart. */
  function RemoveLine(s: Store, customer: CustomerId, product: ProductId, quantity: int): (r: Result<Store, Error>)
    ensures r.Success? <==> Remove(s, customer, product, quantity).Success?
    ensures r.Failure? ==> r == Remove(s, customer, product, quantity)
  {
    if quantity <= 0 then Failure(Runtime(QuantityNotPositive))
    else
      var cs := CustomerCarts(s, customer);
      if |cs| == 0 then Failure(Runtime(NoCartsForCustomer))
      else match FirstHolding(s.carts, cs, product)
        case None => Failure(Runtime(ProductNotInAnyCart))
        case Some(i) => Success(RemoveLineFromCart(s, cs[i], product, quantity))
  }

  lemma {:induction false} QuantityOfWithout(items: seq<CartItem>, j: nat, x: ProductId)
    requires j < |items| && items[j].product != x
    ensures QuantityOf(items[..j] + items[j + 1..], x) == QuantityOf(items, x)
  {
    if j > 0 {
      QuantityOfWithout(items[1..], j - 1, x);
      assert items[..j] + items[j + 1..] == [items[0]] + (items[1..][..j - 1] + items[1..][j..]);
    } else {
      assert items[..j] + items[j + 1..] == items[1..];
    }
  }

  lemma {:induction false} QuantityOfUpdate(items: seq<CartItem>, j: nat, q: int, x: ProductId)
    requires j < |items| && items[j].product != x
    ensures QuantityOf(items[j := CartItem(items[j].product, q)], x) == QuantityOf(items, x)
  {
    if j > 0 {
      QuantityOfUpdate(items[1..], j - 1, q, x);
      assert items[j := CartItem(items[j].product, q)][1..] == items[1..][j - 1 := CartItem(items[j].product, q)];
    }
  }

  /** The corrected remove changes the quantity of no other product in any
      cart, and never leaves a cart without lines. */
  lemma RemoveLineFromCartKeepsOtherProducts(s: Store, k: CartId, p: ProductId, quantity: int)
    requires Holds(s.carts, k, p)
    ensures forall k', x :: x != p ==> Held(RemoveLineFromCart(s, k, p, quantity), k', x) == Held(s, k', x)
    ensures NoEmptyCart(s) ==> NoEmptyCart(RemoveLineFromCart(s, k, p, quantity))
  {
    var items := s.carts[k].items;
    var j := LineIndex(items, p).value;
    var s' := RemoveLineFromCart(s, k, p, quantity);
    forall k', x | x != p ensures Held(s', k', x) == Held(s, k', x) {
      if k' == k {
        if items[j].quantity <= quantity {
          var rest := items[..j] + items[j + 1..];
          QuantityOfWithout(items, j, x);
          if |rest| == 0 {
            assert QuantityOf(rest, x) == 0;
          }
        } else {
          QuantityOfUpdate(items, j, items[j].quantity - quantity, x);
        }
      }
    }
  }

  /** The corrected effect on the removed product: its line holding no more
      than `quantity` goes, otherwise it drops by exactly `quantity`; the cart
      stays unless that line was its only one and went. */
  lemma RemoveLineFromCartTakesQuantity(s: Store, k: CartId, p: ProductId, quantity: int)
    requires Wf(s) && Holds(s.carts, k, p)
    ensures var s' := RemoveLineFromCart(s, k, p, quantity);
      && Held(s', k, p) == (if Held(s, k, p) <= quantity then 0 else Held(s, k, p) - quantity)
      && (k in s'.carts <==> |s.carts[k].items| > 1 || Held(s, k, p) > quantity)
  {
    var items := s.carts[k].items;
    var j := LineIndex(items, p).value;
    if items[j].quantity <= quantity {
      var rest := items[..j] + items[j + 1..];
      assert WfCart(s.carts[k], s);
      assert !HasLine(rest, p) by {
        forall i | 0 <= i < |rest| ensures rest[i].product != p {
          assert rest[i] == items[if i < j then i else i + 1];
        }
      }
    } else {
      var items' := items[j := items[j].(quantity := items[j].quantity - quantity)];
      LineIndexSameProducts(items', items, p);
    }
  }

  /** Taking one line out of a cart keeps the store well-formed. */
  lemma DropLineWf(s: Store, k: CartId, j: nat)
    requires Wf(s) && k in s.carts && j < |s.carts[k].items|
    ensures var items := s.carts[k].items;
      Wf(s.(carts := s.carts[k := s.carts[k].(items := items[..j] + items[j + 1..])]))
  {
    var items := s.carts[k].items;
    var rest := items[..j] + items[j + 1..];
    assert WfCart(s.carts[k], s);
    assert forall i :: 0 <= i < |rest| ==> rest[i] == items[if i < j then i else i + 1];
    ReplaceCartWf(s, k, s.carts[k].(items := rest));
  }

  lemma RemoveLineFromCartWf(s: Store, k: CartId, p: ProductId, quantity: int)
    requires Wf(s) && Holds(s.carts, k, p) && quantity > 0
    ensures Wf(RemoveLineFromCart(s, k, p, quantity))
  {
    var items := s.carts[k].items;
    var j := LineIndex(items, p).value;
    if items[j].quantity <= quantity {
      var rest := items[..j] + items[j + 1..];
      if |rest| == 0 {
        DropCartWf(s, k);
      } else {
        DropLineWf(s, k, j);
      }
    } else {
      RemoveFromCartWf(s, k, p, quantity);
    }
  }

  /** For every store and every successful corrected remove: the store stays
      well-formed, no cart is left without lines, and only the removed
      product's quantity changes. */
  lemma RemoveLineKeepsOtherProducts(s: Store, customer: CustomerId, product: ProductId, quantity: int)
    requires Wf(s)
    requires RemoveLine(s, customer, product, quantity).Success?
    ensures Wf(RemoveLine(s, customer, product, quantity).value)
    ensures NoEmptyCart(s) ==> NoEmptyCart(RemoveLine(s, customer, product, quantity).value)
    ensures forall k, x :: x != product ==>
      Held(RemoveLine(s, customer, product, quantity).value, k, x) == Held(s, k, x)
  {
    var cs := CustomerCarts(s, customer);
    var i := FirstHolding(s.carts, cs, product).value;
    RemoveLineFromCartKeepsOtherProducts(s, cs[i], product, quantity);
    RemoveLineFromCartWf(s, cs[i], product, quantity);
  }

  /** The corrected remove acts on the first of the customer's carts that
      holds the product, as the remove as written does, and there takes the
      line or lowers it by exactly `quantity`; the cart stays unless that
      line was its only one and went, and no other cart changes. */
  lemma RemoveLineTakesQuantity(s: Store, customer: CustomerId, product: ProductId, quantity: int, i: nat)
    requires Wf(s) && quantity > 0
    requires i < |CustomerCarts(s, customer)|
    requires Holds(s.carts, CustomerCarts(s, customer)[i], product)
    requires forall j :: 0 <= j < i ==> !Holds(s.carts, CustomerCarts(s, customer)[j], product)
    ensures RemoveLine(s, customer, product, quantity).Success?
    ensures var k := CustomerCarts(s, customer)[i];
      var s' := RemoveLine(s, customer, product, quantity).value;
      && Held(s', k, product) == (if Held(s, k, product) <= quantity then 0 else Held(s, k, product) - quantity)
      && (k in s'.carts <==> |s.carts[k].items| > 1 || Held(s, k, product) > quantity)
      && (forall k' :: k' in s'.carts && k' != k ==> s'.carts[k'] == s.carts[k'])
  {
    RemoveLineActsOnFirstHoldingCart(s, customer, product, quantity, i);
    RemoveLineFromCartTakesQuantity(s, CustomerCarts(s, customer)[i], product, quantity);
  }

  lemma RemoveLineActsOnFirstHoldingCart(s: Store, customer: CustomerId, product: ProductId, quantity: int, i: nat)
    requires quantity > 0
    requires i < |CustomerCarts(s, customer)|
    requires Holds(s.carts, CustomerCarts(s, customer)[i], product)
    requires forall j :: 0 <= j < i ==> !Holds(s.carts, CustomerCarts(s, customer)[j], product)
    ensures RemoveLine(s, customer, product, quantity) ==
      Success(RemoveLineFromCart(s, CustomerCarts(s, customer)[i], product, quantity))
  {
    FirstHoldingAt(s.carts, CustomerCarts(s, customer), product, i);
  }
}
