/** The null and format checks of the validation helper. A Java reference
    that may be null is an `Option`: `None` is null. */
module ValidationUtil {
  import opened Wrappers

  /** A customer, with the fields the customer record carries. */
  datatype Customer = Customer(
    customerId: Option<nat>,
    firstName: Option<string>,
    lastName: Option<string>,
    email: Option<string>,
    address: Option<string>)

  /** A product, with the fields of the product entity; the item type is the
      ordinal of its enum constant. */
  datatype Product = Product(
    itemNumber: Option<nat>,
    name: Option<string>,
    price: Option<real>,
    itemType: Option<nat>,
    rating: Option<real>)

  /** `String.contains`: `sub` occurs in `s` at some position. */
  predicate Contains(s: string, sub: string)
    ensures Contains(s, sub) ==> |sub| <= |s|
    decreases |s|
  {
    sub <= s || (|s| > 0 && Contains(s[1..], sub))
  }

  /** `sub` occurs in `s` starting at position `i`. */
  predicate OccursAt(s: string, sub: string, i: int) {
    0 <= i <= |s| - |sub| && s[i..i + |sub|] == sub
  }

  /** An occurrence in `s[1..]` is one in `s`, one position later. */
  lemma OccursAtTail(s: string, sub: string, i: int)
    requires |s| > 0
    ensures OccursAt(s[1..], sub, i) <==> i >= 0 && OccursAt(s, sub, i + 1)
  {
    if 0 <= i <= |s[1..]| - |sub| {
      assert s[1..][i..i + |sub|] == s[i + 1..i + 1 + |sub|];
    }
  }

  /** `contains` finds `sub` exactly when some slice of `s` equals it. */
  lemma {:induction false} ContainsIff(s: string, sub: string)
    ensures Contains(s, sub) <==> exists i :: OccursAt(s, sub, i)
    decreases |s|
  {
    assert sub <= s <==> OccursAt(s, sub, 0);
    if |s| > 0 {
      ContainsIff(s[1..], sub);
      if exists i :: OccursAt(s, sub, i) {
        var i :| OccursAt(s, sub, i);
        if i > 0 {
          OccursAtTail(s, sub, i - 1);
        }
      }
      if exists i :: OccursAt(s[1..], sub, i) {
        var i :| OccursAt(s[1..], sub, i);
        OccursAtTail(s, sub, i);
      }
    } else if exists i :: OccursAt(s, sub, i) {
      var i :| OccursAt(s, sub, i);
      assert i == 0;
    }
  }

  /** A one-character string occurs exactly when its character does. */
  lemma {:induction false} ContainsChar(s: string, c: char)
    ensures Contains(s, [c]) <==> c in s
    decreases |s|
  {
    if |s| > 0 {
      ContainsChar(s[1..], c);
      assert [c] <= s <==> s[0] == c;
      assert c in s <==> s[0] == c || c in s[1..] by {
        assert s == [s[0]] + s[1..];
      }
    }
  }

  /** `isValidCustomer`: a valid customer has a non-empty email. */
  predicate IsValidCustomer(customer: Option<Customer>)
    ensures IsValidCustomer(customer) ==> customer.Some? && customer.value.email.Some? && |customer.value.email.value| > 0
  {
    customer.Some? && customer.value.email.Some? && Contains(customer.value.email.value, "@")
  }

  /** `isValidProduct`: a valid product has a name, a price and an item number. */
  predicate IsValidProduct(product: Option<Product>) {
    product.Some? && product.value.name.Some? && product.value.price.Some? && product.value.itemNumber.Some?
  }

  /** A customer is valid exactly when it is present and has an email that
      contains an `@`; no other field matters. */
  lemma IsValidCustomerIff(customer: Option<Customer>)
    ensures IsValidCustomer(customer) <==>
      customer.Some? && customer.value.email.Some? && '@' in customer.value.email.value
  {
    if customer.Some? && customer.value.email.Some? {
      ContainsChar(customer.value.email.value, '@');
    }
  }

  /** Only the email decides: two customers with the same email are both
      valid or both invalid. */
  lemma CustomerValidityDependsOnEmailOnly(a: Customer, b: Customer)
    requires a.email == b.email
    ensures IsValidCustomer(Some(a)) == IsValidCustomer(Some(b))
  {
    IsValidCustomerIff(Some(a));
    IsValidCustomerIff(Some(b));
  }

  /** Null is never a valid customer or product, nor is a customer without an
      email or a product without a name, price or item number. */
  lemma NullsAreInvalid(c: Customer, p: Product)
    ensures !IsValidCustomer(None) && !IsValidProduct(None)
    ensures c.email.None? ==> !IsValidCustomer(Some(c))
    ensures p.name.None? || p.price.None? || p.itemNumber.None? ==> !IsValidProduct(Some(p))
  {
  }

  /** An email without `@` makes a customer invalid, and one with it valid. */
  lemma EmailDecidesCustomer(c: Customer, email: string)
    requires c.email == Some(email)
    ensures IsValidCustomer(Some(c)) <==> exists i :: 0 <= i < |email| && email[i] == '@'
  {
    IsValidCustomerIff(Some(c));
  }

  /** A product is valid exactly when it is present with a name, a price and
      an item number, whatever its item type and rating. */
  lemma IsValidProductIff(p: Product, itemType: Option<nat>, rating: Option<real>)
    ensures IsValidProduct(Some(p.(itemType := itemType, rating := rating))) <==>
      p.name.Some? && p.price.Some? && p.itemNumber.Some?
  {
  }

  /** The item type and the rating do not take part in product validity. */
  lemma ProductValidityIgnoresTypeAndRating(p: Product, itemType: Option<nat>, rating: Option<real>)
    ensures IsValidProduct(Some(p)) == IsValidProduct(Some(p.(itemType := itemType, rating := rating)))
  {
  }
}
