# Shopping cart service, modelled in Dafny

This project models the shopping cart service of a Spring e-commerce
back end, together with its customer and product validation helper.

Customers own shopping carts. A cart holds line items: a product and a
quantity. The service has four operations:

- **Add a product** to a given cart, or to a new cart created for the
  customer. If the cart already has a line for the product, that line's
  quantity goes up; otherwise a new line is added.
- **Remove a quantity of a product.** The service scans the customer's carts
  in the order the repository returns them and acts on the first cart that
  holds the product. If that line holds no more than the quantity, the line
  is deleted and the cart with it; otherwise the line is lowered.
- **Delete a cart** together with all its line items.
- **List a customer's carts.**

The database is a value, `CartStore.Store`. It holds:

- the customer and product ids;
- the carts by id, each with its owner and its lines in insertion order;
- the retrieval order of the carts;
- the next identity the database will hand out.

Each operation is specified as a function from the store before a call to
its outcome, in `CartEngine`. The outcome is either the new store and the
response, or the exception the service throws. The service class
`ShoppingCartServiceImpl.ShoppingCartService` keeps the repositories as
fields and changes them step by step, as the Java code does. Each method is
proved to leave exactly the store its function describes.

What is proved to be kept:

- `Wf` (referential integrity, positive quantities, one line per product
  per cart, a consistent retrieval order) is kept by every operation.
- "No empty cart" is kept by every operation.
- "A product sits in at most one of a customer's carts" is kept by remove
  and delete, and by an add into a new cart or into one of the customer's
  own carts (`CartLaws.AddToOwnCartKeepsOneCartPerProduct`). An add that
  names another customer's cart can break it; see "## Findings".

`ValidationUtil` models the two null/format checks. A Java `null` is
`None`.

Exceptions: the add flow catches every exception and rethrows it as an
`InvalidInputException`. The remove and delete flows rethrow it as a
`RuntimeException`. The model keeps the original exception as the cause:
`Error.InvalidInput(cause)` and `Error.Runtime(cause)`. A not-found
condition in remove or delete therefore reaches the caller wrapped in a
`RuntimeException` (src/main/java/com/axontic/ecommerce/service/impl/ShoppingCartServiceImpl.java:182 and :199). It does not reach the caller as a
distinct not-found error: the controller's handlers for a not-found
exception (src/main/java/com/axontic/ecommerce/controller/ShoppingCartController.java:99-101
and :121-123) are never reached for remove or delete. The model follows the
service code.

## Model

| member | source | states |
|---|---|---|
| CartStore.LineIndex | src/main/java/com/axontic/ecommerce/repository/CartItemRepository.java:21 | the cart-item lookup by (cart, product) finds the first line for the product, and finds nothing exactly when the cart has no line for it |
| CartStore.LineCount | src/main/java/com/axontic/ecommerce/entity/ShoppingCart.java:25-26 | the number of lines for a product is at most the number of lines, and zero exactly when there is no such line |
| CartStore.OwnedBy | src/main/java/com/axontic/ecommerce/repository/ShoppingCartRepository.java:13 | the carts found for a customer are exactly the stored carts owned by that customer, in the order of the store's retrieval order (a subsequence of it), with no repeats |
| CartStore.Without | src/main/java/com/axontic/ecommerce/service/impl/ShoppingCartServiceImpl.java:164 | deleting a cart removes exactly its id from the retrieval order and keeps the others distinct |
| CartStore.DropCart | src/main/java/com/axontic/ecommerce/entity/ShoppingCart.java:25-26 | deleting a cart removes it with all its lines (cascade and orphan removal), leaves every other cart as it was, and leaves customers, products and the next identity unchanged |
| CartEngine.GetCustomerCarts | src/main/java/com/axontic/ecommerce/service/impl/ShoppingCartServiceImpl.java:50-61 | one view per cart of the customer, in retrieval order, with that cart's id and lines; a cart is listed exactly when it is stored and owned by the customer |
| CartEngine.ResolveCart | src/main/java/com/axontic/ecommerce/service/impl/ShoppingCartServiceImpl.java:72-82 | with a cart id: succeeds exactly when the cart exists, returning the store unchanged and that id, and otherwise fails with cart-not-found; without one: succeeds exactly when the customer exists, saving a new empty cart for the customer under the next identity (listed last, next identity advanced) and returning it, and otherwise fails with customer-not-found |
| CartEngine.OtherCartLines | src/main/java/com/axontic/ecommerce/service/impl/ShoppingCartServiceImpl.java:119-123 | the line items of the listed carts other than the given id, flattened (its meaning is stated by `CartEngine.OtherCartLinesHold`) |
| CartEngine.InOtherCart | src/main/java/com/axontic/ecommerce/service/impl/ShoppingCartServiceImpl.java:117-127 | a customer without carts never trips the product-in-other-cart check |
| CartEngine.ValidateInput | src/main/java/com/axontic/ecommerce/service/impl/ShoppingCartServiceImpl.java:109-131 | the guard fails exactly when the quantity is not positive or another cart of the customer holds the product; a non-positive quantity is reported first, and otherwise the failure is the other-cart rule |
| CartEngine.MergeLine | src/main/java/com/axontic/ecommerce/service/impl/ShoppingCartServiceImpl.java:87-98 | the merged cart keeps its owner and holds a line for the product |
| CartInvariants.MergeLineQuantity | src/main/java/com/axontic/ecommerce/service/impl/ShoppingCartServiceImpl.java:87-98 | the product's quantity in the cart rises by exactly the added amount; a line is appended only when the product had none; every other product's line stays where it was |
| CartEngine.NatToString | src/main/java/com/axontic/ecommerce/service/impl/ShoppingCartServiceImpl.java:101 | Java's decimal rendering of an id: non-empty digits, no leading zero, spelling exactly that number |
| CartEngine.AddedMessageNames | src/main/java/com/axontic/ecommerce/service/impl/ShoppingCartServiceImpl.java:101 | the confirmation message has the product id in decimal right after "Product ID " and the customer id in decimal at its end, and both read back as those ids |
| CartEngine.RemoveFromCart | src/main/java/com/axontic/ecommerce/service/impl/ShoppingCartServiceImpl.java:158-171 | the cart-level effect of a remove leaves customers, products and the next identity alone, adds no cart, and leaves every cart but the one acted on unchanged |
| CartLaws.AddToSingleLineCart | src/main/java/com/axontic/ecommerce/service/impl/ShoppingCartServiceImpl.java:72-98 | adding to a cart that holds one line for the product, with no other cart of the customer holding it, yields one line holding both quantities |
| CartEngine.Add | src/main/java/com/axontic/ecommerce/service/impl/ShoppingCartServiceImpl.java:65-107 | every failure of the add is an invalid-input error; every success answers 201 CREATED with a count of 0 |
| CartEngine.FirstHolding | src/main/java/com/axontic/ecommerce/service/impl/ShoppingCartServiceImpl.java:152-174 | the scan stops at the first cart, in retrieval order, that holds the product, and finds none exactly when no cart holds it |
| CartEngine.Remove | src/main/java/com/axontic/ecommerce/service/impl/ShoppingCartServiceImpl.java:136-184 | every failure of the remove is a runtime error |
| CartEngine.Delete | src/main/java/com/axontic/ecommerce/service/impl/ShoppingCartServiceImpl.java:189-201 | the only failure of delete is a runtime error caused by an unknown cart |
| CartInvariants.MergeLineWf | src/main/java/com/axontic/ecommerce/service/impl/ShoppingCartServiceImpl.java:87-98 | merging a positive quantity keeps the cart well-formed and leaves exactly one line for the product |
| CartInvariants.MergeLineHas | src/main/java/com/axontic/ecommerce/service/impl/ShoppingCartServiceImpl.java:87-98 | after the merge the cart holds the products it held before, plus the added one |
| CartInvariants.ResolveCartWf | src/main/java/com/axontic/ecommerce/service/impl/ShoppingCartServiceImpl.java:72-82 | creating or finding the target cart keeps the store well-formed |
| CartInvariants.AddPreservesWf | src/main/java/com/axontic/ecommerce/service/impl/ShoppingCartServiceImpl.java:65-107 | a successful add keeps the store well-formed |
| CartInvariants.RemoveFromCartWf | src/main/java/com/axontic/ecommerce/service/impl/ShoppingCartServiceImpl.java:160-171 | deleting the line and cart, or lowering the line, keeps the store well-formed |
| CartInvariants.RemovePreservesWf | src/main/java/com/axontic/ecommerce/service/impl/ShoppingCartServiceImpl.java:136-184 | a successful remove keeps the store well-formed |
| CartInvariants.DeletePreservesWf | src/main/java/com/axontic/ecommerce/service/impl/ShoppingCartServiceImpl.java:189-201 | a successful delete keeps the store well-formed |
| CartInvariants.DropCartKeepsRules | src/main/java/com/axontic/ecommerce/service/impl/ShoppingCartServiceImpl.java:163-164 | deleting a cart keeps both business rules |
| CartInvariants.RemoveFromCartKeepsRules | src/main/java/com/axontic/ecommerce/service/impl/ShoppingCartServiceImpl.java:160-171 | the cart-level effect of a remove keeps both business rules |
| CartInvariants.RemoveKeepsRules | src/main/java/com/axontic/ecommerce/service/impl/ShoppingCartServiceImpl.java:136-184 | a successful remove keeps "no empty cart" and "one cart per product" |
| CartInvariants.DeleteKeepsRules | src/main/java/com/axontic/ecommerce/service/impl/ShoppingCartServiceImpl.java:189-201 | a successful delete keeps both business rules |
| CartInvariants.AddKeepsNoEmptyCart | src/main/java/com/axontic/ecommerce/service/impl/ShoppingCartServiceImpl.java:73-98 | every successful add leaves its cart non-empty, including a cart it just created |
| CartEngine.OtherCartLinesHold | src/main/java/com/axontic/ecommerce/service/impl/ShoppingCartServiceImpl.java:118-122 | the filter and flat-map pipeline finds a line exactly when some listed cart other than the given id holds the product |
| CartLaws.InOtherCartIff | src/main/java/com/axontic/ecommerce/service/impl/ShoppingCartServiceImpl.java:117-127 | the product-in-other-cart check fires exactly when another of the customer's carts holds the product; with no cart id, every cart counts |
| CartLaws.AddRejectsNonPositiveQuantity | src/main/java/com/axontic/ecommerce/service/impl/ShoppingCartServiceImpl.java:113-116 | a quantity of zero or less fails the add as invalid input, whatever the store |
| CartLaws.AddRejectsProductInOtherCart | src/main/java/com/axontic/ecommerce/service/impl/ShoppingCartServiceImpl.java:118-127 | a positive quantity still fails when another of the customer's carts holds the product |
| CartLaws.AddNotFound | src/main/java/com/axontic/ecommerce/service/impl/ShoppingCartServiceImpl.java:72-85 | a missing cart, a missing customer (no cart id) or a missing product fails the add, with that cause |
| CartLaws.AddSucceedsIff | src/main/java/com/axontic/ecommerce/service/impl/ShoppingCartServiceImpl.java:65-107 | an add succeeds exactly when the quantity is positive, no other cart holds the product, the cart (or the customer) exists and the product exists |
| CartLaws.AddCreatesCart | src/main/java/com/axontic/ecommerce/service/impl/ShoppingCartServiceImpl.java:76-81 | without a cart id exactly one cart is saved, under the next identity, for the customer, holding just the new line; customers, products and every other cart are unchanged and the next identity moves on by one; in the model's retrieval order it comes last among the customer's carts |
| CartLaws.AddMergesExistingLine | src/main/java/com/axontic/ecommerce/service/impl/ShoppingCartServiceImpl.java:87-90 | an existing line grows by exactly the quantity; no other line or cart changes; the cart still has one line for the product; customers and products are unchanged |
| CartLaws.AddInsertsNewLine | src/main/java/com/axontic/ecommerce/service/impl/ShoppingCartServiceImpl.java:91-97 | a cart without the product gets exactly one new line appended, no other cart changes, and customers and products are unchanged |
| CartLaws.AddToOwnCartKeepsOneCartPerProduct | src/main/java/com/axontic/ecommerce/service/impl/ShoppingCartServiceImpl.java:117-127 | an add into a new cart or one of the customer's own carts keeps a product in at most one cart per customer |
| CartLaws.AddThenAddMerges | src/main/java/com/axontic/ecommerce/service/impl/ShoppingCartServiceImpl.java:72-98 | adding a product without a cart and then again to the created cart yields one line with both quantities |
| CartLaws.RemoveSucceedsIff | src/main/java/com/axontic/ecommerce/service/impl/ShoppingCartServiceImpl.java:136-184 | a remove succeeds exactly when the quantity is positive and one of the customer's carts holds the product |
| CartLaws.RemoveFailureCause | src/main/java/com/axontic/ecommerce/service/impl/ShoppingCartServiceImpl.java:140-182 | a non-positive quantity, no carts, or no cart holding the product each fail the remove with that cause, as a runtime error |
| CartLaws.RemoveTouchesFirstHoldingCart | src/main/java/com/axontic/ecommerce/service/impl/ShoppingCartServiceImpl.java:153-174 | a successful remove acts on the first of the customer's carts, in retrieval order, that holds the product, and on no other |
| CartLaws.RemoveFromCartEffect | src/main/java/com/axontic/ecommerce/service/impl/ShoppingCartServiceImpl.java:160-171 | if the line holds no more than the quantity, the cart goes with all its lines; otherwise the line drops by exactly the quantity and the cart stays; other carts are untouched |
| CartLaws.DecrementKeepsLine | src/main/java/com/axontic/ecommerce/service/impl/ShoppingCartServiceImpl.java:166-169 | a lowered line remains the cart's line for its product, holding exactly the quantity less |
| CartLaws.DeleteUnknownCart | src/main/java/com/axontic/ecommerce/service/impl/ShoppingCartServiceImpl.java:192-193 | deleting an unknown cart fails with a not-found cause |
| CartLaws.DeleteRemovesCart | src/main/java/com/axontic/ecommerce/service/impl/ShoppingCartServiceImpl.java:189-201 | deleting a known cart removes it and its lines, leaves every other cart unchanged, no customer listing shows it, and customers, products and the next identity are unchanged |
| CartLaws.AddAddRemoveSession | src/main/java/com/axontic/ecommerce/service/impl/ShoppingCartServiceImpl.java:65-184 | add 3 without a cart, add 2 to cart 7, remove 5: the line holds 3, then 5, then the cart is gone and the customer has no carts |
| CartFindings.AddToForeignCartBreaksOneCartPerProduct | src/main/java/com/axontic/ecommerce/service/impl/ShoppingCartServiceImpl.java:71-75 | as written: an add naming another customer's cart succeeds and leaves that owner with one product in two carts |
| CartFindings.AddToOwnCart | src/main/java/com/axontic/ecommerce/service/impl/ShoppingCartServiceImpl.java:71-75 | corrected add: a cart id naming another customer's cart always fails, whatever the quantity and product; for a new cart or an own cart it is the add as written |
| CartFindings.AddToOwnCartKeepsRules | src/main/java/com/axontic/ecommerce/service/impl/ShoppingCartServiceImpl.java:65-127 | the corrected add keeps the store well-formed and one cart per product per customer |
| CartFindings.AddToOwnCartRefusesForeignCart | src/main/java/com/axontic/ecommerce/service/impl/ShoppingCartServiceImpl.java:71-75 | the corrected add refuses the counterexample's request |
| CartFindings.RemoveLastOfOneProductDropsOthers | src/main/java/com/axontic/ecommerce/service/impl/ShoppingCartServiceImpl.java:161-164 | as written: removing the only item of one product deletes the cart, and another product's two items are lost |
| CartFindings.RemoveLine | src/main/java/com/axontic/ecommerce/service/impl/ShoppingCartServiceImpl.java:136-184 | corrected remove: the same checks and failures as the remove as written, succeeding on the same inputs |
| CartFindings.RemoveLineFromCart | src/main/java/com/axontic/ecommerce/service/impl/ShoppingCartServiceImpl.java:160-171 | corrected cart-level effect: customers, products and the next identity are unchanged, no cart is added, every other cart is unchanged, and the cart goes only when the removed line was its only line |
| CartFindings.RemoveLineFromCartTakesQuantity | src/main/java/com/axontic/ecommerce/service/impl/ShoppingCartServiceImpl.java:160-171 | after the corrected cart-level effect the cart holds max(0, held - quantity) of the product, and the cart survives exactly when it had another line or held more than the quantity |
| CartFindings.RemoveLineTakesQuantity | src/main/java/com/axontic/ecommerce/service/impl/ShoppingCartServiceImpl.java:136-184 | the corrected remove succeeds on the first holding cart, which afterwards holds max(0, held - quantity) of the product and survives exactly when it had another line or held more than the quantity; every other cart is unchanged |
| CartFindings.RemoveLineFromCartKeepsOtherProducts | src/main/java/com/axontic/ecommerce/service/impl/ShoppingCartServiceImpl.java:160-171 | the corrected cart-level effect changes no other product's quantity in any cart and leaves no cart empty |
| CartFindings.RemoveLineFromCartWf | src/main/java/com/axontic/ecommerce/service/impl/ShoppingCartServiceImpl.java:160-171 | the corrected cart-level effect keeps the store well-formed |
| CartFindings.RemoveLineKeepsOtherProducts | src/main/java/com/axontic/ecommerce/service/impl/ShoppingCartServiceImpl.java:136-184 | every successful corrected remove keeps the store well-formed and non-empty, and changes only the removed product's quantities |
| ShoppingCartServiceImpl.ShoppingCartService.constructor | src/main/java/com/axontic/ecommerce/service/impl/ShoppingCartServiceImpl.java:37-47 | a fresh service over given customers and products has no carts and is well-formed |
| ShoppingCartServiceImpl.ShoppingCartService.AddProductToCart | src/main/java/com/axontic/ecommerce/service/impl/ShoppingCartServiceImpl.java:65-107 | the repositories end up exactly as `Add` says; a failure rolls every change back (including the cart just saved); well-formedness and "no empty cart" are kept |
| ShoppingCartServiceImpl.ShoppingCartService.SaveLine | src/main/java/com/axontic/ecommerce/service/impl/ShoppingCartServiceImpl.java:87-98 | raising the existing line or saving a new one leaves exactly the cart `MergeLine` describes and changes nothing else |
| ShoppingCartServiceImpl.ShoppingCartService.RemoveProductFromCart | src/main/java/com/axontic/ecommerce/service/impl/ShoppingCartServiceImpl.java:136-184 | the loop finds the first holding cart; the repositories end up exactly as `Remove` says, unchanged on failure; both business rules are kept |
| ShoppingCartServiceImpl.ShoppingCartService.TakeFromCart | src/main/java/com/axontic/ecommerce/service/impl/ShoppingCartServiceImpl.java:160-171 | deleting the line and the cart, or lowering the line, is exactly `RemoveFromCart` and keeps the store well-formed |
| ShoppingCartServiceImpl.ShoppingCartService.DeleteLineAndCart | src/main/java/com/axontic/ecommerce/service/impl/ShoppingCartServiceImpl.java:160-165 | deleting the line and then its cart leaves exactly the store without that cart, still well-formed |
| ShoppingCartServiceImpl.ShoppingCartService.LowerLine | src/main/java/com/axontic/ecommerce/service/impl/ShoppingCartServiceImpl.java:166-170 | lowering the line changes exactly that line's quantity and keeps the store well-formed |
| ShoppingCartServiceImpl.ShoppingCartService.DeleteCart | src/main/java/com/axontic/ecommerce/service/impl/ShoppingCartServiceImpl.java:189-201 | the cart and its items go exactly as `Delete` says; unknown ids change nothing; both business rules are kept |
| ValidationUtil.Contains | src/main/java/com/axontic/ecommerce/util/ValidationUtil.java:8 | `String.contains` finds a string only in one at least as long |
| ValidationUtil.ContainsIff | src/main/java/com/axontic/ecommerce/util/ValidationUtil.java:8 | `contains` holds exactly when some slice of the string equals the searched string |
| ValidationUtil.IsValidCustomer | src/main/java/com/axontic/ecommerce/util/ValidationUtil.java:7-9 | a valid customer is present and has a non-empty email |
| ValidationUtil.IsValidProductIff | src/main/java/com/axontic/ecommerce/util/ValidationUtil.java:11-13 | a product is valid exactly when it is present with a name, a price and an item number, whatever its item type and rating |
| ValidationUtil.ContainsChar | src/main/java/com/axontic/ecommerce/util/ValidationUtil.java:8 | `contains` of a one-character string holds exactly when the character occurs |
| ValidationUtil.IsValidCustomerIff | src/main/java/com/axontic/ecommerce/util/ValidationUtil.java:7-9 | a customer is valid exactly when it is non-null and has a non-null email containing "@" |
| ValidationUtil.CustomerValidityDependsOnEmailOnly | src/main/java/com/axontic/ecommerce/util/ValidationUtil.java:7-9 | two customers with the same email are equally valid |
| ValidationUtil.EmailDecidesCustomer | src/main/java/com/axontic/ecommerce/util/ValidationUtil.java:7-9 | with an email present, validity is decided by an "@" at some position |
| ValidationUtil.NullsAreInvalid | src/main/java/com/axontic/ecommerce/util/ValidationUtil.java:7-13 | null, a null email, or a null name, price or item number make the check fail |
| ValidationUtil.ProductValidityIgnoresTypeAndRating | src/main/java/com/axontic/ecommerce/util/ValidationUtil.java:11-13 | item type and rating play no part in product validity |

## Left out

- Logging: every logger call is left out, since it has no effect on the state.
- The `@Transactional` machinery is reduced to "a failure leaves the store as it was". Concurrency between transactions is not modelled, nor is the race between the other-cart check and the write.
- Identity generation: a rolled-back add in the model also restores the next cart id. A database identity column may leave a gap; the model does not capture that.
- Java `int` overflow: quantities are unbounded integers, so the merge `quantity + q` never wraps around.
- Cart-item ids and product details are left out. A line holds only the product id and the quantity, and a cart view holds only the cart id and the lines; the product entity's fields appear only in `ValidationUtil`.
- The conversion of carts to transfer objects by the object mapper is modelled as a plain projection. A storage or mapping failure in `getCustomerCarts` (the `RuntimeException` at src/main/java/com/axontic/ecommerce/service/impl/ShoppingCartServiceImpl.java:57-60) is not modelled.
- CartEngine.GetCustomerCarts: states the listing's contents but not the customer's identity, because the owner is excluded from serialisation.
- Exception messages are left out, except the success message of the add. Errors carry the cause kind only.
- The controllers, the customer and product services, and the bean-validation annotations on the transfer objects are not part of this model.
- Customer.java and ItemType.java are not part of this model. The customer record takes its fields from the customer transfer object, and the item type is an enum ordinal.
- Retrieval order: the customer-cart query (src/main/java/com/axontic/ecommerce/repository/ShoppingCartRepository.java:13) has no ORDER BY and promises no order. The model fixes one order for all carts and puts a new cart last. Which cart `removeProductFromCart` acts on when several hold the product, and the claim that a created cart comes last among the customer's carts, hold for that modelled order only.
- Line order within a cart: the model keeps a cart's lines in insertion order, and a new line goes last. The `cartItems` mapping (src/main/java/com/axontic/ecommerce/entity/ShoppingCart.java:25-26) has no ordering annotation, so the order of lines in a listing is not promised. Statements about where a line sits hold for the modelled order only.
- Negative ids: customer, product and cart ids are modelled as `nat`, while the source takes them as `Long` request parameters, which may be negative. No stored entity has a negative id, so a negative id behaves as an unknown id, which the model already covers. The minus sign that such an id would put in the confirmation message (src/main/java/com/axontic/ecommerce/service/impl/ShoppingCartServiceImpl.java:101) is not modelled.
- Floating-point price and rating are modelled as `real`; only their presence matters to the checks.

## Findings

| source | as written | input that shows it | evidently intended | confidence | as-written member | corrected member |
|---|---|---|---|---|---|---|
| src/main/java/com/axontic/ecommerce/service/impl/ShoppingCartServiceImpl.java:71-75 | a given cart id is looked up by id alone; the owner is never compared with the customer, and the other-cart check looks at the requesting customer's carts | customer 1 owns cart 10 holding product 42 and cart 20 holding product 43; customer 2 adds product 42 to cart 20 | a cart id naming another customer's cart is refused, so a product stays in at most one cart per customer | medium, not executed | CartFindings.AddToForeignCartBreaksOneCartPerProduct | CartFindings.AddToOwnCart |
| src/main/java/com/axontic/ecommerce/service/impl/ShoppingCartServiceImpl.java:161-164 | once a line is fully removed, the whole cart is deleted, though the comment says this is for a cart that "contains no items" | cart 10 holds one of product 42 and two of product 43; remove one of product 42 | the cart is deleted only when removing the line leaves it empty; other products' lines stay | high, not executed | CartFindings.RemoveLastOfOneProductDropsOthers | CartFindings.RemoveLine |
