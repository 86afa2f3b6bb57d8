/** What the cart service's operations do to the store, as functions from the
    store before a call to the outcome of the call: the store after it and
    the response, or the exception it throws. A thrown exception rolls the
    whole transaction back, so a failure carries no store. */
module CartEngine {
  import opened Wrappers
  import opened CartStore

  /** Why an operation failed: the exception raised inside the service. */
  datatype Cause =
    | QuantityNotPositive   // InvalidInputException (add) / IllegalArgumentException (remove)
    | AlreadyInOtherCart    // InvalidInputException
    | CartNotFound          // ResourceNotFoundException
    | CustomerNotFound      // ResourceNotFoundException
    | ProductNotFound       // ResourceNotFoundException
    | NoCartsForCustomer    // ResourceNotFoundException
    | ProductNotInAnyCart   // ResourceNotFoundException
    | CartOfOtherCustomer   // raised only by the corrected add of CartFindings

  /** What leaves the service: the add flow rethrows every failure as an
      InvalidInputException, the remove and delete flows as a RuntimeException;
      both keep the original exception as their cause. */
  datatype Error = InvalidInput(cause: Cause) | Runtime(cause: Cause)

  /** The status envelope returned by a successful add. `count` is never set
      by the service and keeps Java's default of 0. */
  datatype StatusResponse = StatusResponse(statusCode: int, statusMessage: string, count: int)

  /** HttpStatus.CREATED */
  const CREATED: int := 201

  /** A cart as `getCustomerCarts` hands it out: the owner is not part of the
      view (the customer reference is excluded from serialisation). */
  datatype CartView = CartView(shoppingCartId: CartId, cartItems: seq<CartItem>)

  // ---------------------------------------------------------------------
  // Decimal rendering of ids, for the confirmation message

  function DigitChar(d: nat): char
    requires d < 10
  {
    "0123456789"[d]
  }

  predicate IsDigits(d: string) {
    forall i :: 0 <= i < |d| ==> '0' <= d[i] <= '9'
  }

  /** The number a string of decimal digits spells. */
  function DigitsValue(d: string): nat
    requires IsDigits(d)
  {
    if |d| == 0 then 0 else DigitsValue(d[..|d| - 1]) * 10 + (d[|d| - 1] - '0') as int
  }

  /** Java's decimal rendering of a non-negative `long`: digits without a
      leading zero that spell `n`. */
  function NatToString(n: nat): (r: string)
    ensures |r| > 0 && IsDigits(r)
    ensures r[0] == '0' ==> r == "0"
    ensures DigitsValue(r) == n
  {
    if n < 10 then [DigitChar(n)]
    else
      var high := NatToString(n / 10);
      DigitsAppend(high, n % 10);
      high + [DigitChar(n % 10)]
  }

  /** Appending digit `d` multiplies the value by ten and adds `d`. */
  lemma DigitsAppend(high: string, d: nat)
    requires d < 10 && IsDigits(high)
    ensures IsDigits(high + [DigitChar(d)])
    ensures DigitsValue(high + [DigitChar(d)]) == DigitsValue(high) * 10 + d
  {
    var r := high + [DigitChar(d)];
    assert r[..|r| - 1] == high;
  }

  /** The confirmation message of a successful add. */
  function AddedMessage(product: ProductId, customer: CustomerId): string {
    "Product ID " + NatToString(product) + " successfully added for customer " + NatToString(customer)
  }

  /** The confirmation message names the product right after "Product ID "
      and the customer at its end, each in decimal digits that read back as
      the id. */
  lemma AddedMessageNames(product: ProductId, customer: CustomerId)
    ensures var m, pd, cd := AddedMessage(product, customer), NatToString(product), NatToString(customer);
      && |m| == |"Product ID "| + |pd| + |" successfully added for customer "| + |cd|
      && m[..|"Product ID "|] == "Product ID "
      && IsDigits(m[|"Product ID "|..|"Product ID "| + |pd|])
      && DigitsValue(m[|"Product ID "|..|"Product ID "| + |pd|]) == product
      && IsDigits(m[|m| - |cd|..])
      && DigitsValue(m[|m| - |cd|..]) == customer
  {
    var m := AddedMessage(product, customer);
    assert m[|"Product ID "|..|"Product ID "| + |NatToString(product)|] == NatToString(product);
    assert m[|m| - |NatToString(customer)|..] == NatToString(customer);
  }

  // ---------------------------------------------------------------------
  // getCustomerCarts

  function GetCustomerCarts(s: Store, customer: CustomerId): (r: seq<CartView>)
    ensures |r| == |CustomerCarts(s, customer)|
    ensures forall i :: 0 <= i < |r| ==>
      r[i].shoppingCartId == CustomerCarts(s, customer)[i] &&
      r[i].shoppingCartId in s.carts &&
      r[i].cartItems == s.carts[r[i].shoppingCartId].items
    ensures forall k :: (exists i :: 0 <= i < |r| && r[i].shoppingCartId == k) <==>
      k in s.order && k in s.carts && s.carts[k].customer == customer
  {
    var cs := CustomerCarts(s, customer);
    var r := seq(|cs|, i requires 0 <= i < |cs| => CartView(cs[i], s.carts[cs[i]].items));
    assert forall k :: k in cs ==> exists i :: 0 <= i < |r| && r[i].shoppingCartId == k by {
      forall k | k in cs ensures exists i :: 0 <= i < |r| && r[i].shoppingCartId == k {
        var i :| 0 <= i < |cs| && cs[i] == k;
        assert r[i].shoppingCartId == k;
      }
    }
    r
  }

  // ---------------------------------------------------------------------
  // addProductToCart

  /** The line items of the customer's carts other than `cartId`, flattened:
      the stream that `validateInput` filters and flat-maps. A missing
      `cartId` excludes no cart. */
  function OtherCartLines(carts: map<CartId, ShoppingCart>, cs: seq<CartId>, cartId: Option<CartId>): (r: seq<CartItem>)
  {
    if |cs| == 0 then []
    else
      (if cs[0] in carts && Some(cs[0]) != cartId then carts[cs[0]].items else [])
      + OtherCartLines(carts, cs[1..], cartId)
  }

  /** The flattened lines hold a line for `p` exactly when one of the listed
      carts other than `cartId` does. */
  lemma {:induction false} OtherCartLinesHold(carts: map<CartId, ShoppingCart>, cs: seq<CartId>, cartId: Option<CartId>, p: ProductId)
    ensures HasLine(OtherCartLines(carts, cs, cartId), p) <==>
      exists k :: k in cs && k in carts && Some(k) != cartId && HasLine(carts[k].items, p)
  {
    if |cs| > 0 {
      var head := if cs[0] in carts && Some(cs[0]) != cartId then carts[cs[0]].items else [];
      HasLineAppend(head, OtherCartLines(carts, cs[1..], cartId), p);
      OtherCartLinesHold(carts, cs[1..], cartId, p);
      if exists k :: k in cs && k in carts && Some(k) != cartId && HasLine(carts[k].items, p) {
        var k :| k in cs && k in carts && Some(k) != cartId && HasLine(carts[k].items, p);
        if k != cs[0] {
          assert k in cs[1..];
        }
      }
    }
  }

  /** `validateInput`'s check: some line of another cart of the customer is
      for `product`. */
  predicate InOtherCart(s: Store, customer: CustomerId, cartId: Option<CartId>, product: ProductId)
    ensures |CustomerCarts(s, customer)| == 0 ==> !InOtherCart(s, customer, cartId, product)
  {
    HasLine(OtherCartLines(s.carts, CustomerCarts(s, customer), cartId), product)
  }

  /** The guard of the add: a non-positive quantity is refused first, then a
      product already in another of the customer's carts. */
  function ValidateInput(s: Store, customer: CustomerId, cartId: Option<CartId>, product: ProductId, quantity: int): (r: Outcome<Cause>)
    ensures r.Fail? <==> quantity <= 0 || InOtherCart(s, customer, cartId, product)
    ensures quantity <= 0 ==> r == Fail(QuantityNotPositive)
    ensures quantity > 0 && r.Fail? ==> r.error == AlreadyInOtherCart
  {
    if quantity <= 0 then Fail(QuantityNotPositive)
    else if InOtherCart(s, customer, cartId, product) then Fail(AlreadyInOtherCart)
    else Pass
  }

  /** The cart the add goes to: the given one, or a new empty cart for the
      customer saved under the next identity. */
  function ResolveCart(s: Store, customer: CustomerId, cartId: Option<CartId>): (r: Result<(Store, CartId), Cause>)
    ensures r.Success? ==> r.value.1 in r.value.0.carts
    ensures cartId.Some? ==> (r.Success? <==> cartId.value in s.carts)
    ensures cartId.Some? && r.Success? ==> r.value == (s, cartId.value)
    ensures cartId.Some? && r.Failure? ==> r.error == CartNotFound
    ensures cartId.None? ==> (r.Success? <==> customer in s.customers)
    ensures cartId.None? && r.Success? ==>
      var k := s.nextCartId;
      && r.value.1 == k
      && r.value.0 == s.(carts := s.carts[k := ShoppingCart(customer, [])], order := s.order + [k], nextCartId := k + 1)
    ensures cartId.None? && r.Failure? ==> r.error == CustomerNotFound
  {
    match cartId
    case Some(k) =>
      if k in s.carts then Success((s, k)) else Failure(CartNotFound)
    case None =>
      if customer in s.customers then
        var k := s.nextCartId;
        Success((s.(carts := s.carts[k := ShoppingCart(customer, [])],
                    order := s.order + [k],
                    nextCartId := k + 1), k))
      else Failure(CustomerNotFound)
  }

  /** Adds `q` to the cart's line for `p`, or appends a new line for `p`. */
  function MergeLine(cart: ShoppingCart, p: ProductId, q: int): (r: ShoppingCart)
    ensures r.customer == cart.customer
    ensures HasLine(r.items, p)
  {
    match LineIndex(cart.items, p)
    case Some(j) =>
      var r := cart.(items := cart.items[j := cart.items[j].(quantity := cart.items[j].quantity + q)]);
      assert r.items[j].product == p;
      r
    case None =>
      var r := cart.(items := cart.items + [CartItem(p, q)]);
      assert r.items[|cart.items|].product == p;
      r
  }

  function Add(s: Store, customer: CustomerId, cartId: Option<CartId>, product: ProductId, quantity: int)
    : (r: Result<(Store, StatusResponse), Error>)
    ensures r.Failure? ==> r.error.InvalidInput?
    ensures r.Success? ==> r.value.1.statusCode == CREATED && r.value.1.count == 0
  {
    match ValidateInput(s, customer, cartId, product, quantity)
    case Fail(cause) => Failure(InvalidInput(cause))
    case Pass =>
      match ResolveCart(s, customer, cartId)
      case Failure(cause) => Failure(InvalidInput(cause))
      case Success((s1, k)) =>
        if product !in s1.products then Failure(InvalidInput(ProductNotFound))
        else
          var s2 := s1.(carts := s1.carts[k := MergeLine(s1.carts[k], product, quantity)]);
          Success((s2, StatusResponse(CREATED, AddedMessage(product, customer), 0)))
  }

  // ---------------------------------------------------------------------
  // removeProductFromCart

  predicate Holds(carts: map<CartId, ShoppingCart>, k: CartId, p: ProductId) {
    k in carts && HasLine(carts[k].items, p)
  }

  /** The position in `cs` of the first cart holding a line for `p`: where
      the scan of `removeProductFromCart` stops. */
  function FirstHolding(carts: map<CartId, ShoppingCart>, cs: seq<CartId>, p: ProductId): (r: Option<nat>)
    ensures r.Some? ==> r.value < |cs| && Holds(carts, cs[r.value], p)
    ensures r.Some? ==> forall j :: 0 <= j < r.value ==> !Holds(carts, cs[j], p)
    ensures r.None? <==> forall j :: 0 <= j < |cs| ==> !Holds(carts, cs[j], p)
  {
    if |cs| == 0 then None
    else if Holds(carts, cs[0], p) then Some(0)
    else match FirstHolding(carts, cs[1..], p)
      case None => None
      case Some(i) => Some(i + 1)
  }

  /** The scan stops at `i` when cart `i` is the first that holds `p`. */
  lemma FirstHoldingAt(carts: map<CartId, ShoppingCart>, cs: seq<CartId>, p: ProductId, i: nat)
    requires i < |cs| && Holds(carts, cs[i], p)
    requires forall j :: 0 <= j < i ==> !Holds(carts, cs[j], p)
    ensures FirstHolding(carts, cs, p) == Some(i)
  {
    var f := FirstHolding(carts, cs, p);
    assert f.Some?;
    assert f.value <= i;
  }

  /** What removing `quantity` of `p` does to cart `k`, which holds a line for
      `p`: a line with no more than `quantity` goes, and the cart with it;
      otherwise the line is lowered by `quantity`. */
  function RemoveFromCart(s: Store, k: CartId, p: ProductId, quantity: int): (r: Store)
    requires Holds(s.carts, k, p)
    ensures r.customers == s.customers && r.products == s.products && r.nextCartId == s.nextCartId
    ensures r.carts.Keys <= s.carts.Keys
    ensures forall k' :: k' in r.carts && k' != k ==> r.carts[k'] == s.carts[k']
  {
    var items := s.carts[k].items;
    var j := LineIndex(items, p).value;
    if items[j].quantity <= quantity then DropCart(s, k)
    else s.(carts := s.carts[k := s.carts[k].(items := items[j := items[j].(quantity := items[j].quantity - quantity)])])
  }

  function Remove(s: Store, customer: CustomerId, product: ProductId, quantity: int): (r: Result<Store, Error>)
    ensures r.Failure? ==> r.error.Runtime?
  {
    if quantity <= 0 then Failure(Runtime(QuantityNotPositive))
    else
      var cs := CustomerCarts(s, customer);
      if |cs| == 0 then Failure(Runtime(NoCartsForCustomer))
      else match FirstHolding(s.carts, cs, product)
        case None => Failure(Runtime(ProductNotInAnyCart))
        case Some(i) => Success(RemoveFromCart(s, cs[i], product, quantity))
  }

  // ---------------------------------------------------------------------
  // deleteCart

  function Delete(s: Store, cartId: CartId): (r: Result<Store, Error>)
    ensures r.Failure? ==> r.error == Runtime(CartNotFound)
  {
    if cartId !in s.carts then Failure(Runtime(CartNotFound))
    else Success(DropCart(s, cartId))
  }
}
