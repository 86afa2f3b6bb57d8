/** The promises of each cart operation, stated against the store before the
    call: when it fails and with which cause, and on success exactly what
    changes and what stays as it was. */
module CartLaws {
  import opened Wrappers
  import opened CartStore
  import opened CartEngine
  import opened CartInvariants

  /** Cart `k` is one of the customer's carts other than `cartId` and holds a
      line for `p`: the situation `validateInput` rejects. */
  predicate OtherCartHolds(s: Store, customer: CustomerId, cartId: Option<CartId>, k: CartId, p: ProductId) {
    k in s.carts && s.carts[k].customer == customer && Some(k) != cartId && HasLine(s.carts[k].items, p)
  }

  // ---------------------------------------------------------------------
  // validateInput

  /** The stream pipeline of `validateInput` finds a line exactly when some
      other cart of the customer holds the product; with no `cartId`, every
      cart of the customer counts as other. */
  lemma InOtherCartIff(s: Store, customer: CustomerId, cartId: Option<CartId>, product: ProductId)
    requires Wf(s)
    ensures InOtherCart(s, customer, cartId, product) <==>
      exists k :: OtherCartHolds(s, customer, cartId, k, product)
  {
    var cs := CustomerCarts(s, customer);
    OtherCartLinesHold(s.carts, cs, cartId, product);
    if exists k :: OtherCartHolds(s, customer, cartId, k, product) {
      var k :| OtherCartHolds(s, customer, cartId, k, product);
      assert k in cs;
    }
    if exists k :: k in cs && k in s.carts && Some(k) != cartId && HasLine(s.carts[k].items, product) {
      var k :| k in cs && k in s.carts && Some(k) != cartId && HasLine(s.carts[k].items, product);
      assert OtherCartHolds(s, customer, cartId, k, product);
    }
  }

  // ---------------------------------------------------------------------
  // addProductToCart: failures

  lemma AddRejectsNonPositiveQuantity(s: Store, customer: CustomerId, cartId: Option<CartId>, product: ProductId, quantity: int)
    requires quantity <= 0
    ensures Add(s, customer, cartId, product, quantity) == Failure(InvalidInput(QuantityNotPositive))
  {
  }

  lemma AddRejectsProductInOtherCart(s: Store, customer: CustomerId, cartId: Option<CartId>, product: ProductId, quantity: int, k: CartId)
    requires Wf(s) && quantity > 0
    requires OtherCartHolds(s, customer, cartId, k, product)
    ensures Add(s, customer, cartId, product, quantity) == Failure(InvalidInput(AlreadyInOtherCart))
  {
    InOtherCartIff(s, customer, cartId, product);
  }

  /** Once the input is valid, a missing cart, customer or product fails the
      add, and the not-found cause surfaces as invalid input. */
  lemma AddNotFound(s: Store, customer: CustomerId, cartId: Option<CartId>, product: ProductId, quantity: int)
    requires Wf(s) && quantity > 0
    requires forall k :: !OtherCartHolds(s, customer, cartId, k, product)
    ensures cartId.Some? && cartId.value !in s.carts ==>
      Add(s, customer, cartId, product, quantity) == Failure(InvalidInput(CartNotFound))
    ensures cartId.None? && customer !in s.customers ==>
      Add(s, customer, cartId, product, quantity) == Failure(InvalidInput(CustomerNotFound))
    ensures (if cartId.Some? then cartId.value in s.carts else customer in s.customers) && product !in s.products ==>
      Add(s, customer, cartId, product, quantity) == Failure(InvalidInput(ProductNotFound))
  {
    InOtherCartIff(s, customer, cartId, product);
  }

  /** An add succeeds exactly when the quantity is positive, no other cart of
      the customer holds the product, the target cart (or, without one, the
      customer) exists, and the product exists. */
  lemma AddSucceedsIff(s: Store, customer: CustomerId, cartId: Option<CartId>, product: ProductId, quantity: int)
    requires Wf(s)
    ensures Add(s, customer, cartId, product, quantity).Success? <==>
      && quantity > 0
      && (forall k :: !OtherCartHolds(s, customer, cartId, k, product))
      && (if cartId.Some? then cartId.value in s.carts else customer in s.customers)
      && product in s.products
  {
    InOtherCartIff(s, customer, cartId, product);
  }

  // ---------------------------------------------------------------------
  // addProductToCart: effects

  lemma {:induction false} OwnedByExtend(carts: map<CartId, ShoppingCart>, carts': map<CartId, ShoppingCart>, order: seq<CartId>, k: CartId, c: CustomerId)
    requires k in carts'
    requires forall x :: x in order ==> (x in carts <==> x in carts') && (x in carts ==> carts'[x].customer == carts[x].customer)
    ensures OwnedBy(carts', order + [k], c) ==
      OwnedBy(carts, order, c) + (if carts'[k].customer == c then [k] else [])
  {
    if |order| == 0 {
      assert order + [k] == [k];
    } else {
      var o := order + [k];
      assert o[0] == order[0] && o[1..] == order[1..] + [k];
      assert order[0] in order;
      OwnedByExtend(carts, carts', order[1..], k, c);
      assert OwnedBy(carts', o, c) ==
        (if o[0] in carts' && carts'[o[0]].customer == c then [o[0]] else []) + OwnedBy(carts', o[1..], c);
    }
  }

  /** Without a cart id, a successful add saves exactly one new cart, owned
      by the customer and holding the one new line; every other cart stays as
      it was, and the new cart comes last among the customer's carts. */
  lemma AddCreatesCart(s: Store, customer: CustomerId, product: ProductId, quantity: int)
    requires Wf(s)
    requires Add(s, customer, None, product, quantity).Success?
    ensures var s' := Add(s, customer, None, product, quantity).value.0;
      var k := s.nextCartId;
      && k !in s.carts
      && s'.carts.Keys == s.carts.Keys + {k}
      && s'.carts[k] == ShoppingCart(customer, [CartItem(product, quantity)])
      && (forall k' :: k' in s.carts ==> s'.carts[k'] == s.carts[k'])
      && s'.order == s.order + [k]
      && s'.customers == s.customers && s'.products == s.products && s'.nextCartId == k + 1
      && CustomerCarts(s', customer) == CustomerCarts(s, customer) + [k]
      && (forall c :: c != customer ==> CustomerCarts(s', c) == CustomerCarts(s, c))
  {
    var s' := Add(s, customer, None, product, quantity).value.0;
    var k := s.nextCartId;
    assert k !in s.carts;
    assert LineIndex([], product).None?;
    assert s'.carts[k].items == [] + [CartItem(product, quantity)];
    OwnedByExtend(s.carts, s'.carts, s.order, k, customer);
    forall c | c != customer ensures CustomerCarts(s', c) == CustomerCarts(s, c) {
      OwnedByExtend(s.carts, s'.carts, s.order, k, c);
    }
  }

  /** When the cart already holds the product, a successful add raises that
      line by the quantity; no other line and no other cart changes. */
  lemma AddMergesExistingLine(s: Store, customer: CustomerId, k: CartId, product: ProductId, quantity: int)
    requires Wf(s) && k in s.carts && HasLine(s.carts[k].items, product)
    requires Add(s, customer, Some(k), product, quantity).Success?
    ensures var s' := Add(s, customer, Some(k), product, quantity).value.0;
      var items := s.carts[k].items;
      var j := LineIndex(items, product).value;
      && s'.carts.Keys == s.carts.Keys
      && s'.order == s.order && s'.nextCartId == s.nextCartId
      && s'.customers == s.customers && s'.products == s.products
      && (forall k' :: k' in s.carts && k' != k ==> s'.carts[k'] == s.carts[k'])
      && s'.carts[k].customer == s.carts[k].customer
      && |s'.carts[k].items| == |items|
      && s'.carts[k].items[j] == CartItem(product, items[j].quantity + quantity)
      && (forall i :: 0 <= i < |items| && i != j ==> s'.carts[k].items[i] == items[i])
      && LineCount(s'.carts[k].items, product) == 1
      && QuantityOf(s'.carts[k].items, product) == QuantityOf(items, product) + quantity
  {
    assert WfCart(s.carts[k], s);
    MergeLineWf(s.carts[k], s, product, quantity);
    var s' := Add(s, customer, Some(k), product, quantity).value.0;
    var j := LineIndex(s.carts[k].items, product).value;
    assert LineIndex(s'.carts[k].items, product) == Some(j);
  }

  /** When the cart does not hold the product, a successful add appends one
      line for it; no other cart changes, and the cart then holds exactly one
      line for the product. */
  lemma AddInsertsNewLine(s: Store, customer: CustomerId, k: CartId, product: ProductId, quantity: int)
    requires Wf(s) && k in s.carts && !HasLine(s.carts[k].items, product)
    requires Add(s, customer, Some(k), product, quantity).Success?
    ensures var s' := Add(s, customer, Some(k), product, quantity).value.0;
      && s'.carts.Keys == s.carts.Keys
      && s'.order == s.order && s'.nextCartId == s.nextCartId
      && s'.customers == s.customers && s'.products == s.products
      && (forall k' :: k' in s.carts && k' != k ==> s'.carts[k'] == s.carts[k'])
      && s'.carts[k] == ShoppingCart(s.carts[k].customer, s.carts[k].items + [CartItem(product, quantity)])
      && LineCount(s'.carts[k].items, product) == 1
  {
    assert WfCart(s.carts[k], s);
    MergeLineWf(s.carts[k], s, product, quantity);
  }

  /** An add into one of the customer's own carts, or into a new cart, keeps
      a product in at most one cart per customer. */
  lemma AddToOwnCartKeepsOneCartPerProduct(s: Store, customer: CustomerId, cartId: Option<CartId>, product: ProductId, quantity: int)
    requires Wf(s) && OneCartPerProduct(s)
    requires cartId.Some? && cartId.value in s.carts ==> s.carts[cartId.value].customer == customer
    requires Add(s, customer, cartId, product, quantity).Success?
    ensures OneCartPerProduct(Add(s, customer, cartId, product, quantity).value.0)
  {
    AddSucceedsIff(s, customer, cartId, product, quantity);
    var (s1, k) := ResolveCart(s, customer, cartId).value;
    var merged := MergeLine(s1.carts[k], product, quantity);
    var s' := Add(s, customer, cartId, product, quantity).value.0;
    assert s' == s1.(carts := s1.carts[k := merged]);
    assert s'.carts[k].customer == customer;
    assert forall o :: o in s'.carts && o != k ==> o in s.carts && s'.carts[o] == s.carts[o];
    forall k1, k2, x | (k1 in s'.carts && k2 in s'.carts && k1 != k2 &&
                        s'.carts[k1].customer == s'.carts[k2].customer &&
                        HasLine(s'.carts[k1].items, x))
      ensures !HasLine(s'.carts[k2].items, x)
    {
      MergeLineHas(s1.carts[k], product, quantity, x);
      if k1 == k || k2 == k {
        var o := if k1 == k then k2 else k1;
        if HasLine(s'.carts[k2].items, x) && x == product {
          assert OtherCartHolds(s, customer, cartId, o, product);
        }
      }
    }
  }

  /** Adding to a cart that holds just one line for the product, and that
      no other cart of the customer shares the product with, leaves that one
      line holding both quantities. */
  lemma AddToSingleLineCart(s: Store, customer: CustomerId, k: CartId, product: ProductId, q1: int, q2: int)
    requires Wf(s) && q2 > 0 && product in s.products
    requires k in s.carts && s.carts[k] == ShoppingCart(customer, [CartItem(product, q1)])
    requires forall k' :: !OtherCartHolds(s, customer, Some(k), k', product)
    ensures Add(s, customer, Some(k), product, q2).Success?
    ensures Add(s, customer, Some(k), product, q2).value.0.carts[k].items == [CartItem(product, q1 + q2)]
  {
    AddSucceedsIff(s, customer, Some(k), product, q2);
    assert HasLine(s.carts[k].items, product) by {
      assert s.carts[k].items[0].product == product;
    }
    AddMergesExistingLine(s, customer, k, product, q2);
  }

  /** Adding a product without a cart and then adding more of it to the cart
      just created leaves that cart with one line holding both quantities. */
  lemma AddThenAddMerges(s: Store, customer: CustomerId, product: ProductId, q1: int, q2: int)
    requires Wf(s)
    requires Add(s, customer, None, product, q1).Success?
    requires q2 > 0
    ensures var s1 := Add(s, customer, None, product, q1).value.0;
      var k := s.nextCartId;
      && Add(s1, customer, Some(k), product, q2).Success?
      && Add(s1, customer, Some(k), product, q2).value.0.carts[k].items == [CartItem(product, q1 + q2)]
  {
    var s1 := Add(s, customer, None, product, q1).value.0;
    var k := s.nextCartId;
    AddCreatesCart(s, customer, product, q1);
    AddPreservesWf(s, customer, None, product, q1);
    AddSucceedsIff(s, customer, None, product, q1);
    forall k' ensures !OtherCartHolds(s1, customer, Some(k), k', product) {
      if OtherCartHolds(s1, customer, Some(k), k', product) {
        assert OtherCartHolds(s, customer, None, k', product);
      }
    }
    AddToSingleLineCart(s1, customer, k, product, q1, q2);
  }

  // ---------------------------------------------------------------------
  // removeProductFromCart

  /** A remove succeeds exactly when the quantity is positive and one of the
      customer's carts holds the product. */
  lemma RemoveSucceedsIff(s: Store, customer: CustomerId, product: ProductId, quantity: int)
    requires Wf(s)
    ensures Remove(s, customer, product, quantity).Success? <==>
      quantity > 0 && exists k :: k in s.carts && s.carts[k].customer == customer && HasLine(s.carts[k].items, product)
  {
    var cs := CustomerCarts(s, customer);
    if exists k :: k in s.carts && s.carts[k].customer == customer && HasLine(s.carts[k].items, product) {
      var k :| k in s.carts && s.carts[k].customer == customer && HasLine(s.carts[k].items, product);
      assert k in cs;
      var i :| 0 <= i < |cs| && cs[i] == k;
      assert Holds(s.carts, cs[i], product);
    }
  }

  lemma RemoveFailureCause(s: Store, customer: CustomerId, product: ProductId, quantity: int)
    requires Wf(s)
    ensures quantity <= 0 ==>
      Remove(s, customer, product, quantity) == Failure(Runtime(QuantityNotPositive))
    ensures quantity > 0 && (forall k :: k in s.carts ==> s.carts[k].customer != customer) ==>
      Remove(s, customer, product, quantity) == Failure(Runtime(NoCartsForCustomer))
    ensures (&& quantity > 0
             && (exists k :: k in s.carts && s.carts[k].customer == customer)
             && (forall k :: k in s.carts && s.carts[k].customer == customer ==> !HasLine(s.carts[k].items, product))) ==>
      Remove(s, customer, product, quantity) == Failure(Runtime(ProductNotInAnyCart))
  {
    var cs := CustomerCarts(s, customer);
    if exists k :: k in s.carts && s.carts[k].customer == customer {
      var k :| k in s.carts && s.carts[k].customer == customer;
      assert k in cs;
    }
  }

  /** Lowering line `j` by less than its quantity leaves it the line for its
      product, holding exactly that much less. */
  lemma DecrementKeepsLine(items: seq<CartItem>, j: nat, p: ProductId, quantity: int)
    requires LineIndex(items, p) == Some(j)
    ensures var items' := items[j := CartItem(p, items[j].quantity - quantity)];
      LineIndex(items', p) == Some(j) && QuantityOf(items', p) == QuantityOf(items, p) - quantity
  {
    var items' := items[j := CartItem(p, items[j].quantity - quantity)];
    var l := LineIndex(items', p);
    assert items'[j].product == p;
    assert l.Some? && l.value <= j;
  }

  /** The effect of a removal on the cart it acts on: if the line holds no
      more than the quantity, the cart goes with all its lines; otherwise the
      line drops by exactly the quantity and the cart stays. Other carts are
      untouched either way. */
  lemma RemoveFromCartEffect(s: Store, k: CartId, product: ProductId, quantity: int)
    requires Holds(s.carts, k, product)
    ensures var s' := RemoveFromCart(s, k, product, quantity);
      var items := s.carts[k].items;
      var j := LineIndex(items, product).value;
      && (forall k' :: k' != k ==> (k' in s'.carts <==> k' in s.carts))
      && (forall k' :: k' != k && k' in s.carts ==> s'.carts[k'] == s.carts[k'])
      && (items[j].quantity <= quantity ==> k !in s'.carts && k !in s'.order)
      && (items[j].quantity > quantity ==>
            && k in s'.carts
            && s'.carts[k].customer == s.carts[k].customer
            && s'.carts[k].items == items[j := CartItem(product, items[j].quantity - quantity)]
            && QuantityOf(s'.carts[k].items, product) == QuantityOf(items, product) - quantity)
  {
    var items := s.carts[k].items;
    var j := LineIndex(items, product).value;
    if items[j].quantity > quantity {
      DecrementKeepsLine(items, j, product, quantity);
    }
  }

  /** A successful remove acts on the first of the customer's carts, in
      retrieval order, that holds the product, and on no other cart. */
  lemma RemoveTouchesFirstHoldingCart(s: Store, customer: CustomerId, product: ProductId, quantity: int, i: nat)
    requires quantity > 0
    requires i < |CustomerCarts(s, customer)|
    requires Holds(s.carts, CustomerCarts(s, customer)[i], product)
    requires forall j :: 0 <= j < i ==> !Holds(s.carts, CustomerCarts(s, customer)[j], product)
    ensures Remove(s, customer, product, quantity) ==
      Success(RemoveFromCart(s, CustomerCarts(s, customer)[i], product, quantity))
  {
    FirstHoldingAt(s.carts, CustomerCarts(s, customer), product, i);
  }

  // ---------------------------------------------------------------------
  // deleteCart

  lemma DeleteUnknownCart(s: Store, cartId: CartId)
    requires cartId !in s.carts
    ensures Delete(s, cartId) == Failure(Runtime(CartNotFound))
  {
  }

  /** Deleting a known cart removes it with all its lines; every other cart
      is unchanged, and no customer's cart listing shows it any more. */
  lemma DeleteRemovesCart(s: Store, cartId: CartId)
    requires Wf(s) && cartId in s.carts
    ensures Delete(s, cartId).Success?
    ensures var s' := Delete(s, cartId).value;
      && cartId !in s'.carts && cartId !in s'.order
      && s'.carts.Keys == s.carts.Keys - {cartId}
      && (forall k :: k in s'.carts ==> s'.carts[k] == s.carts[k])
      && s'.customers == s.customers && s'.products == s.products && s'.nextCartId == s.nextCartId
      && (forall c, i :: 0 <= i < |GetCustomerCarts(s', c)| ==> GetCustomerCarts(s', c)[i].shoppingCartId != cartId)
  {
  }

  // ---------------------------------------------------------------------
  // A session

  /** Customer 1 adds three of product 42 without a cart, which creates cart
      7; adds two more to cart 7; then removes five: the line reaches zero,
      the cart goes, and the customer has no carts left. */
  lemma AddAddRemoveSession()
    ensures var s0 := Store({1}, {42}, map[], [], 7);
      && Add(s0, 1, None, 42, 3).Success?
      && var s1 := Add(s0, 1, None, 42, 3).value.0;
      && GetCustomerCarts(s1, 1) == [CartView(7, [CartItem(42, 3)])]
      && Add(s1, 1, Some(7), 42, 2).Success?
      && var s2 := Add(s1, 1, Some(7), 42, 2).value.0;
      && GetCustomerCarts(s2, 1) == [CartView(7, [CartItem(42, 5)])]
      && Remove(s2, 1, 42, 5).Success?
      && GetCustomerCarts(Remove(s2, 1, 42, 5).value, 1) == []
  {
    var s0 := Store({1}, {42}, map[], [], 7);
    var s1 := Store({1}, {42}, map[7 := ShoppingCart(1, [CartItem(42, 3)])], [7], 8);
    var s2 := Store({1}, {42}, map[7 := ShoppingCart(1, [CartItem(42, 5)])], [7], 8);
    SessionFirstAdd();
    SessionSecondAdd();
    SessionRemove();
    assert CustomerCarts(s1, 1) == [7];
    assert CustomerCarts(s2, 1) == [7];
  }

  /** Step one of the session: the add without a cart saves cart 7. */
  lemma SessionFirstAdd()
    ensures var s0 := Store({1}, {42}, map[], [], 7);
      && Add(s0, 1, None, 42, 3).Success?
      && Add(s0, 1, None, 42, 3).value.0 == Store({1}, {42}, map[7 := ShoppingCart(1, [CartItem(42, 3)])], [7], 8)
  {
    var s0 := Store({1}, {42}, map[], [], 7);
    assert CustomerCarts(s0, 1) == [];
    assert !InOtherCart(s0, 1, None, 42);
    assert LineIndex([], 42).None?;
    assert MergeLine(ShoppingCart(1, []), 42, 3) == ShoppingCart(1, [CartItem(42, 3)]) by {
      assert [] + [CartItem(42, 3)] == [CartItem(42, 3)];
    }
    assert map[7 := ShoppingCart(1, [])][7 := ShoppingCart(1, [CartItem(42, 3)])] == map[7 := ShoppingCart(1, [CartItem(42, 3)])];
    assert [] + [7] == [7];
  }

  /** Step two: adding 2 to cart 7 merges into its line. */
  lemma SessionSecondAdd()
    ensures var s1 := Store({1}, {42}, map[7 := ShoppingCart(1, [CartItem(42, 3)])], [7], 8);
      && Add(s1, 1, Some(7), 42, 2).Success?
      && Add(s1, 1, Some(7), 42, 2).value.0 == Store({1}, {42}, map[7 := ShoppingCart(1, [CartItem(42, 5)])], [7], 8)
  {
    var s1 := Store({1}, {42}, map[7 := ShoppingCart(1, [CartItem(42, 3)])], [7], 8);
    assert CustomerCarts(s1, 1) == [7];
    assert OtherCartLines(s1.carts, [7], Some(7)) == [];
    assert !InOtherCart(s1, 1, Some(7), 42);
    assert LineIndex([CartItem(42, 3)], 42) == Some(0);
    assert MergeLine(ShoppingCart(1, [CartItem(42, 3)]), 42, 2) == ShoppingCart(1, [CartItem(42, 5)]) by {
      assert [CartItem(42, 3)][0 := CartItem(42, 5)] == [CartItem(42, 5)];
    }
    assert s1.carts[7 := ShoppingCart(1, [CartItem(42, 5)])] == map[7 := ShoppingCart(1, [CartItem(42, 5)])];
  }

  /** Step three: removing 5 takes the whole line, and cart 7 with it. */
  lemma SessionRemove()
    ensures var s2 := Store({1}, {42}, map[7 := ShoppingCart(1, [CartItem(42, 5)])], [7], 8);
      Remove(s2, 1, 42, 5) == Success(Store({1}, {42}, map[], [], 8))
  {
    var s2 := Store({1}, {42}, map[7 := ShoppingCart(1, [CartItem(42, 5)])], [7], 8);
    assert CustomerCarts(s2, 1) == [7];
    assert Holds(s2.carts, 7, 42) by {
      assert s2.carts[7].items[0].product == 42;
    }
    assert FirstHolding(s2.carts, [7], 42) == Some(0);
    assert LineIndex([CartItem(42, 5)], 42) == Some(0);
    assert s2.carts - {7} == map[];
  }
}
