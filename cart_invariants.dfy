/** The invariants of the store and why every operation keeps them: the
    well-formedness the schema and the service maintain, and the business
    rules about which carts may exist. */
module CartInvariants {
  import opened Wrappers
  import opened CartStore
  import opened CartEngine

  // ---------------------------------------------------------------------
  // Line items

  /** In a cart with at most one line per product, a product it holds has
      exactly one line. */
  lemma {:induction false} DistinctLineCount(items: seq<CartItem>, p: ProductId)
    requires DistinctLines(items)
    ensures LineCount(items, p) == if HasLine(items, p) then 1 else 0
  {
    if |items| > 0 {
      assert DistinctLines(items[1..]) by {
        forall i, j | 0 <= i < j < |items[1..]| ensures items[1..][i].product != items[1..][j].product {
          assert items[i + 1].product != items[j + 1].product;
        }
      }
      DistinctLineCount(items[1..], p);
      if items[0].product == p {
        assert !HasLine(items[1..], p) by {
          forall j | 0 <= j < |items[1..]| ensures items[1..][j].product != p {
            assert items[j + 1].product != items[0].product;
          }
        }
      } else {
        assert HasLine(items, p) <==> HasLine(items[1..], p) by {
          if HasLine(items, p) {
            var j :| 0 <= j < |items| && items[j].product == p;
            assert items[1..][j - 1].product == p;
          }
          if HasLine(items[1..], p) {
            var j :| 0 <= j < |items[1..]| && items[1..][j].product == p;
            assert items[j + 1].product == p;
          }
        }
      }
    }
  }

  /** Merging a positive quantity for an existing product keeps a cart
      well-formed, and the cart then holds exactly one line for it. */
  lemma MergeLineWf(cart: ShoppingCart, s: Store, p: ProductId, q: int)
    requires WfCart(cart, s) && p in s.products && q > 0
    ensures WfCart(MergeLine(cart, p, q), s)
    ensures LineCount(MergeLine(cart, p, q).items, p) == 1
  {
    var m := MergeLine(cart, p, q);
    match LineIndex(cart.items, p)
    case Some(j) =>
      assert forall i :: 0 <= i < |m.items| ==> m.items[i].product == cart.items[i].product;
      assert HasLine(m.items, p) by { assert m.items[j].product == p; }
      DistinctLineCount(m.items, p);
    case None =>
      assert m.items == cart.items + [CartItem(p, q)];
      assert HasLine(m.items, p) by { assert m.items[|cart.items|].product == p; }
      DistinctLineCount(m.items, p);
  }

  /** A merge raises the quantity of `p` by exactly `q`, grows the cart by a
      line only when `p` had none, and keeps every line of another product
      where it was. */
  lemma MergeLineQuantity(cart: ShoppingCart, p: ProductId, q: int)
    ensures var m := MergeLine(cart, p, q);
      && QuantityOf(m.items, p) == QuantityOf(cart.items, p) + q
      && |m.items| == |cart.items| + (if HasLine(cart.items, p) then 0 else 1)
      && forall i :: 0 <= i < |cart.items| && cart.items[i].product != p ==> m.items[i] == cart.items[i]
  {
    var m := MergeLine(cart, p, q);
    match LineIndex(cart.items, p)
    case Some(j) =>
      LineIndexSameProducts(m.items, cart.items, p);
    case None =>
      LineIndexAppend(cart.items, p, q);
  }

  /** After a merge the cart holds the products it held before, plus `p`. */
  lemma MergeLineHas(cart: ShoppingCart, p: ProductId, q: int, x: ProductId)
    ensures HasLine(MergeLine(cart, p, q).items, x) <==> HasLine(cart.items, x) || x == p
  {
    var m := MergeLine(cart, p, q);
    match LineIndex(cart.items, p)
    case Some(j) =>
      SameProductsSameLines(m.items, cart.items, x);
    case None =>
      HasLineAppend(cart.items, [CartItem(p, q)], x);
      assert HasLine([CartItem(p, q)], x) <==> x == p by {
        assert [CartItem(p, q)][0].product == p;
      }
  }

  // ---------------------------------------------------------------------
  // Well-formedness is kept by every operation

  /** Resolving the target cart keeps the store well-formed. */
  lemma ResolveCartWf(s: Store, customer: CustomerId, cartId: Option<CartId>)
    requires Wf(s)
    requires ResolveCart(s, customer, cartId).Success?
    ensures Wf(ResolveCart(s, customer, cartId).value.0)
  {
    if cartId.None? {
      var (s1, k) := ResolveCart(s, customer, cartId).value;
      assert k !in s.order;
      forall k' | k' in s1.carts ensures WfCart(s1.carts[k'], s1) {
        if k' != k { assert WfCart(s.carts[k'], s); }
      }
    }
  }

  /** Replacing one existing cart by a well-formed cart keeps the store
      well-formed. */
  lemma ReplaceCartWf(s: Store, k: CartId, cart: ShoppingCart)
    requires Wf(s) && k in s.carts && WfCart(cart, s)
    ensures Wf(s.(carts := s.carts[k := cart]))
  {
    var s' := s.(carts := s.carts[k := cart]);
    forall k' | k' in s'.carts ensures WfCart(s'.carts[k'], s') {
      if k' != k { assert WfCart(s.carts[k'], s); }
    }
  }

  lemma AddPreservesWf(s: Store, customer: CustomerId, cartId: Option<CartId>, product: ProductId, quantity: int)
    requires Wf(s)
    requires Add(s, customer, cartId, product, quantity).Success?
    ensures Wf(Add(s, customer, cartId, product, quantity).value.0)
  {
    var (s1, k) := ResolveCart(s, customer, cartId).value;
    ResolveCartWf(s, customer, cartId);
    assert WfCart(s1.carts[k], s1);
    MergeLineWf(s1.carts[k], s1, product, quantity);
    ReplaceCartWf(s1, k, MergeLine(s1.carts[k], product, quantity));
  }

  lemma DropCartWf(s: Store, k: CartId)
    requires Wf(s)
    ensures Wf(DropCart(s, k))
  {
    var d := DropCart(s, k);
    forall k' | k' in d.carts ensures WfCart(d.carts[k'], d) {
      assert WfCart(s.carts[k'], s);
    }
  }

  /** Lowering one line's quantity, while it stays positive, keeps the store
      well-formed. */
  lemma DecrementLineWf(s: Store, k: CartId, j: nat, quantity: int)
    requires Wf(s) && k in s.carts && j < |s.carts[k].items|
    requires 0 < quantity < s.carts[k].items[j].quantity
    ensures var items := s.carts[k].items;
      Wf(s.(carts := s.carts[k := s.carts[k].(items := items[j := items[j].(quantity := items[j].quantity - quantity)])]))
  {
    var items := s.carts[k].items;
    var items' := items[j := items[j].(quantity := items[j].quantity - quantity)];
    assert WfCart(s.carts[k], s);
    assert forall x :: 0 <= x < |items'| ==> items'[x].product == items[x].product;
    ReplaceCartWf(s, k, s.carts[k].(items := items'));
  }

  lemma RemoveFromCartWf(s: Store, k: CartId, p: ProductId, quantity: int)
    requires Wf(s) && Holds(s.carts, k, p) && quantity > 0
    ensures Wf(RemoveFromCart(s, k, p, quantity))
  {
    var items := s.carts[k].items;
    var j := LineIndex(items, p).value;
    if items[j].quantity <= quantity {
      DropCartWf(s, k);
    } else {
      DecrementLineWf(s, k, j, quantity);
    }
  }

  lemma RemovePreservesWf(s: Store, customer: CustomerId, product: ProductId, quantity: int)
    requires Wf(s)
    requires Remove(s, customer, product, quantity).Success?
    ensures Wf(Remove(s, customer, product, quantity).value)
  {
    var cs := CustomerCarts(s, customer);
    var i := FirstHolding(s.carts, cs, product).value;
    RemoveFromCartWf(s, cs[i], product, quantity);
  }

  lemma DeletePreservesWf(s: Store, cartId: CartId)
    requires Wf(s)
    requires Delete(s, cartId).Success?
    ensures Wf(Delete(s, cartId).value)
  {
    DropCartWf(s, cartId);
  }

  // ---------------------------------------------------------------------
  // The business rules: no empty cart, one cart per product and customer

  lemma DropCartKeepsRules(s: Store, k: CartId)
    ensures NoEmptyCart(s) ==> NoEmptyCart(DropCart(s, k))
    ensures OneCartPerProduct(s) ==> OneCartPerProduct(DropCart(s, k))
  {
  }

  /** A cart whose lines keep their products (only quantities change) holds
      exactly the products it held before. */
  lemma SameProductsSameLines(a: seq<CartItem>, b: seq<CartItem>, p: ProductId)
    requires |a| == |b|
    requires forall i :: 0 <= i < |a| ==> a[i].product == b[i].product
    ensures HasLine(a, p) <==> HasLine(b, p)
  {
    if HasLine(a, p) {
      var i :| 0 <= i < |a| && a[i].product == p;
      assert b[i].product == p;
    }
    if HasLine(b, p) {
      var i :| 0 <= i < |b| && b[i].product == p;
      assert a[i].product == p;
    }
  }

  /** The cart-level effect of a removal keeps both rules. */
  lemma RemoveFromCartKeepsRules(s: Store, k: CartId, p: ProductId, quantity: int)
    requires Holds(s.carts, k, p)
    ensures NoEmptyCart(s) ==> NoEmptyCart(RemoveFromCart(s, k, p, quantity))
    ensures OneCartPerProduct(s) ==> OneCartPerProduct(RemoveFromCart(s, k, p, quantity))
  {
    var items := s.carts[k].items;
    var j := LineIndex(items, p).value;
    if items[j].quantity <= quantity {
      DropCartKeepsRules(s, k);
    } else {
      var s' := RemoveFromCart(s, k, p, quantity);
      var items' := s'.carts[k].items;
      forall p' ensures HasLine(items', p') <==> HasLine(items, p') {
        SameProductsSameLines(items', items, p');
      }
    }
  }

  lemma RemoveKeepsRules(s: Store, customer: CustomerId, product: ProductId, quantity: int)
    requires Remove(s, customer, product, quantity).Success?
    ensures NoEmptyCart(s) ==> NoEmptyCart(Remove(s, customer, product, quantity).value)
    ensures OneCartPerProduct(s) ==> OneCartPerProduct(Remove(s, customer, product, quantity).value)
  {
    var cs := CustomerCarts(s, customer);
    var i := FirstHolding(s.carts, cs, product).value;
    RemoveFromCartKeepsRules(s, cs[i], product, quantity);
  }

  lemma DeleteKeepsRules(s: Store, cartId: CartId)
    requires Delete(s, cartId).Success?
    ensures NoEmptyCart(s) ==> NoEmptyCart(Delete(s, cartId).value)
    ensures OneCartPerProduct(s) ==> OneCartPerProduct(Delete(s, cartId).value)
  {
    DropCartKeepsRules(s, cartId);
  }

  /** Every successful add leaves its cart with at least one line, so no
      empty cart is ever left behind, not even the one it creates. */
  lemma AddKeepsNoEmptyCart(s: Store, customer: CustomerId, cartId: Option<CartId>, product: ProductId, quantity: int)
    requires NoEmptyCart(s)
    requires Add(s, customer, cartId, product, quantity).Success?
    ensures NoEmptyCart(Add(s, customer, cartId, product, quantity).value.0)
  {
    var (s1, k) := ResolveCart(s, customer, cartId).value;
    var merged := MergeLine(s1.carts[k], product, quantity);
    assert |merged.items| > 0 by {
      if LineIndex(s1.carts[k].items, product).None? {
        assert merged.items == s1.carts[k].items + [CartItem(product, quantity)];
      }
    }
  }
}
