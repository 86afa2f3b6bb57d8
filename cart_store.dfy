/** The relational state the cart service works on: customer and product ids,
    shopping carts with their owner and line items, and the order in which
    the cart repository hands a customer's carts back. */
module CartStore {
  import opened Wrappers

  type CustomerId = nat
  type ProductId = nat
  type CartId = nat

  /** A line item: one product of a cart and how many of it. The owning cart
      is the cart whose `items` hold the line. */
  datatype CartItem = CartItem(product: ProductId, quantity: int)

  /** A shopping cart: its owning customer and its line items, in the order
      they were added. */
  datatype ShoppingCart = ShoppingCart(customer: CustomerId, items: seq<CartItem>)

  /** The whole store. `order` lists every cart id once, in retrieval order;
      `nextCartId` is the identity the database hands to the next saved cart. */
  datatype Store = Store(
    customers: set<CustomerId>,
    products: set<ProductId>,
    carts: map<CartId, ShoppingCart>,
    order: seq<CartId>,
    nextCartId: CartId)

  // ---------------------------------------------------------------------
  // Line items of one cart

  predicate HasLine(items: seq<CartItem>, p: ProductId) {
    exists j :: 0 <= j < |items| && items[j].product == p
  }

  /** A product has a line in a concatenation exactly when it has one in
      either part. */
  lemma {:induction false} HasLineAppend(a: seq<CartItem>, b: seq<CartItem>, p: ProductId)
    ensures HasLine(a + b, p) <==> HasLine(a, p) || HasLine(b, p)
  {
    if HasLine(a + b, p) {
      var j :| 0 <= j < |a + b| && (a + b)[j].product == p;
      if j >= |a| {
        assert b[j - |a|].product == p;
      }
    }
    if HasLine(a, p) {
      var j :| 0 <= j < |a| && a[j].product == p;
      assert (a + b)[j].product == p;
    }
    if HasLine(b, p) {
      var j :| 0 <= j < |b| && b[j].product == p;
      assert (a + b)[|a| + j].product == p;
    }
  }

  /** The position of the line for `p`, as the cart-item repository's lookup
      by (cart, product) finds it. */
  function LineIndex(items: seq<CartItem>, p: ProductId): (r: Option<nat>)
    ensures r.Some? ==> r.value < |items| && items[r.value].product == p
    ensures r.Some? ==> forall j :: 0 <= j < r.value ==> items[j].product != p
    ensures r.None? <==> !HasLine(items, p)
  {
    if |items| == 0 then None
    else if items[0].product == p then Some(0)
    else match LineIndex(items[1..], p)
      case None => None
      case Some(j) => Some(j + 1)
  }

  /** The lookup by product sees only the products of the lines, so
      changing quantities does not move it. */
  lemma {:induction false} LineIndexSameProducts(a: seq<CartItem>, b: seq<CartItem>, p: ProductId)
    requires |a| == |b| && forall i :: 0 <= i < |a| ==> a[i].product == b[i].product
    ensures LineIndex(a, p) == LineIndex(b, p)
  {
    if |a| > 0 {
      LineIndexSameProducts(a[1..], b[1..], p);
    }
  }

  /** A line appended for a product the items lack is where the lookup finds it. */
  lemma LineIndexAppend(items: seq<CartItem>, p: ProductId, q: int)
    requires !HasLine(items, p)
    ensures LineIndex(items + [CartItem(p, q)], p) == Some(|items|)
  {
    var a := items + [CartItem(p, q)];
    assert a[|items|].product == p;
  }

  /** How many lines of `items` are for product `p`. */
  function LineCount(items: seq<CartItem>, p: ProductId): (n: nat)
    ensures n <= |items|
    ensures n == 0 <==> !HasLine(items, p)
  {
    if |items| == 0 then 0
    else (if items[0].product == p then 1 else 0) + LineCount(items[1..], p)
  }

  /** At most one line per product. */
  predicate DistinctLines(items: seq<CartItem>) {
    forall i, j :: 0 <= i < j < |items| ==> items[i].product != items[j].product
  }

  /** The quantity of `p` in `items` (zero when there is no line for it). */
  function QuantityOf(items: seq<CartItem>, p: ProductId): int {
    match LineIndex(items, p)
    case None => 0
    case Some(j) => items[j].quantity
  }

  // ---------------------------------------------------------------------
  // Cart ids in retrieval order

  predicate Distinct(ids: seq<CartId>) {
    forall i, j :: 0 <= i < j < |ids| ==> ids[i] != ids[j]
  }

  /** `a` is `b` with some elements left out, the rest in the same order. */
  predicate SubseqOf(a: seq<CartId>, b: seq<CartId>)
    decreases |b|
  {
    |a| == 0 || (|b| > 0 && ((a[0] == b[0] && SubseqOf(a[1..], b[1..])) || SubseqOf(a, b[1..])))
  }

  /** The ids of `order` whose cart is owned by `c`, in order: what
      `findByCustomerCustomerId` returns. */
  function OwnedBy(carts: map<CartId, ShoppingCart>, order: seq<CartId>, c: CustomerId): (r: seq<CartId>)
    ensures forall k :: k in r <==> k in order && k in carts && carts[k].customer == c
    ensures SubseqOf(r, order)
    ensures |r| <= |order|
    ensures Distinct(order) ==> Distinct(r)
  {
    if |order| == 0 then []
    else
      var rest := OwnedBy(carts, order[1..], c);
      if order[0] in carts && carts[order[0]].customer == c then
        [order[0]] + rest
      else rest
  }

  /** `order` with `k` taken out. */
  function Without(order: seq<CartId>, k: CartId): (r: seq<CartId>)
    ensures forall x :: x in r <==> x in order && x != k
    ensures Distinct(order) ==> Distinct(r)
  {
    if |order| == 0 then []
    else
      var rest := Without(order[1..], k);
      if order[0] == k then rest
      else
        assert Distinct(order) ==> order[0] !in order[1..];
        [order[0]] + rest
  }

  /** The carts of customer `c`, in retrieval order. */
  function CustomerCarts(s: Store, c: CustomerId): seq<CartId> {
    OwnedBy(s.carts, s.order, c)
  }

  // ---------------------------------------------------------------------
  // Well-formedness of the store

  /** What the schema and the service keep true of every cart: the owner and
      every product referenced exist (the non-null join columns), every
      quantity is positive, and a cart has at most one line per product. */
  ghost predicate WfCart(cart: ShoppingCart, s: Store) {
    && cart.customer in s.customers
    && DistinctLines(cart.items)
    && (forall i :: 0 <= i < |cart.items| ==> cart.items[i].quantity > 0 && cart.items[i].product in s.products)
  }

  ghost predicate Wf(s: Store) {
    && Distinct(s.order)
    && (forall k :: k in s.carts <==> k in s.order)
    && (forall k :: k in s.carts ==> k < s.nextCartId)
    && (forall k :: k in s.carts ==> WfCart(s.carts[k], s))
  }

  /** The business rule of the add path: a product sits in at most one of a
      customer's carts. */
  ghost predicate OneCartPerProduct(s: Store) {
    forall k1, k2, p ::
      (k1 in s.carts && k2 in s.carts && k1 != k2 &&
       s.carts[k1].customer == s.carts[k2].customer &&
       HasLine(s.carts[k1].items, p)) ==> !HasLine(s.carts[k2].items, p)
  }

  /** No cart without line items exists. */
  ghost predicate NoEmptyCart(s: Store) {
    forall k :: k in s.carts ==> |s.carts[k].items| > 0
  }

  /** The store with cart `k` and all its line items gone. */
  function DropCart(s: Store, k: CartId): (r: Store)
    ensures r.carts.Keys == s.carts.Keys - {k}
    ensures forall k' :: k' in r.carts ==> r.carts[k'] == s.carts[k']
    ensures r.customers == s.customers && r.products == s.products && r.nextCartId == s.nextCartId
  {
    s.(carts := s.carts - {k}, order := Without(s.order, k))
  }
}
