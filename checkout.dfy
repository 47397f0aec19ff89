/**
 * Sale finalization: the cart total, marking sold tags disabled, the
 * transaction record and the invoice's subtotal / tax / total.
 */
module Checkout {
  import opened Inventory

  /** A completed sale. `items` is a snapshot of the cart, `total` the sum of their prices. */
  datatype Transaction = Transaction(
    id: string,
    items: seq<Product>,
    total: real,
    date: string,
    tagsKilled: bool)

  /** The three amounts shown on the invoice. */
  datatype InvoiceAmounts = InvoiceAmounts(subtotal: real, taxAmount: real, total: real)

  /** `items.reduce((sum, item) => sum + item.price, 0)`: a left fold over the prices. */
  function Total(items: seq<Product>): real
  {
    if items == [] then 0.0 else Total(items[..|items| - 1]) + items[|items| - 1].price
  }

  /** The total of two lists put together is the sum of their totals. */
  lemma {:induction false} TotalConcat(a: seq<Product>, b: seq<Product>)
    ensures Total(a + b) == Total(a) + Total(b)
    decreases |b|
  {
    if b == [] {
      assert a + b == a;
    } else {
      var b' := b[..|b| - 1];
      assert (a + b)[..|a + b| - 1] == a + b';
      assert (a + b)[|a + b| - 1] == b[|b| - 1];
      TotalConcat(a, b');
    }
  }

  /** Prices are not checked for sign when a product is added, so a total is non-negative only when every price is. */
  lemma {:induction false} TotalNonNegative(items: seq<Product>)
    requires forall i :: 0 <= i < |items| ==> items[i].price >= 0.0
    ensures Total(items) >= 0.0
    decreases |items|
  {
    if items != [] {
      TotalNonNegative(items[..|items| - 1]);
    }
  }

  /** `products.map(...)`: every product whose tag is in the cart becomes disabled, the rest stay as they are. */
  function DisableSold(products: seq<Product>, cart: seq<Product>): (r: seq<Product>)
    ensures |r| == |products|
    ensures forall i :: 0 <= i < |products| ==> r[i] == products[i].(rfidStatus := r[i].rfidStatus)
    ensures forall i :: 0 <= i < |products| && HasTag(cart, products[i].rfidTag) ==> r[i].rfidStatus == Disabled
    ensures forall i :: 0 <= i < |products| && !HasTag(cart, products[i].rfidTag) ==> r[i] == products[i]
  {
    seq(|products|, i requires 0 <= i < |products| =>
      if HasTag(cart, products[i].rfidTag) then products[i].(rfidStatus := Disabled) else products[i])
  }

  /** `after` extends `before` and no product of `before` went from disabled back to active. */
  ghost predicate NoReactivation(before: seq<Product>, after: seq<Product>)
  {
    && |before| <= |after|
    && forall i :: 0 <= i < |before| ==>
         && after[i].rfidTag == before[i].rfidTag
         && (before[i].rfidStatus == Disabled ==> after[i].rfidStatus == Disabled)
  }

  /** Finalizing a sale never re-activates a product and keeps every tag in place. */
  lemma DisableSoldNoReactivation(products: seq<Product>, cart: seq<Product>)
    ensures NoReactivation(products, DisableSold(products, cart))
    ensures UniqueTags(products) ==> UniqueTags(DisableSold(products, cart))
  {
  }

  /** Disabled stays disabled across any chain of catalog updates. */
  lemma NoReactivationTransitive(a: seq<Product>, b: seq<Product>, c: seq<Product>)
    requires NoReactivation(a, b) && NoReactivation(b, c)
    ensures NoReactivation(a, c)
  {
  }

  /** Adding a product never re-activates one either. */
  lemma AddedCatalogNoReactivation(products: seq<Product>, form: ProductForm, price: real, id: int, createdAt: string)
    ensures NoReactivation(products, AddedCatalog(products, form, price, id, createdAt))
  {
    var r := AddedCatalog(products, form, price, id, createdAt);
    assert forall i :: 0 <= i < |products| ==> r[i] == r[..|products|][i];
  }

  /** After a sale every tag that was in the cart is found as a disabled product. */
  lemma SoldTagIsDisabled(products: seq<Product>, cart: seq<Product>, tag: string)
    requires HasTag(cart, tag)
    requires HasTag(products, tag)
    ensures var sold := DisableSold(products, cart);
      HasTag(sold, tag) && FindByTag(sold, tag).value.rfidStatus == Disabled
  {
    var sold := DisableSold(products, cart);
    var i :| 0 <= i < |products| && products[i].rfidTag == tag;
    assert sold[i].rfidTag == tag;
    var k := TagIndex(sold, tag);
    assert sold[k].rfidTag == products[k].rfidTag;
  }

  /** The invoice arithmetic: tax is a percentage of the subtotal, and the total adds it. */
  function Invoice(items: seq<Product>, taxRate: real): (inv: InvoiceAmounts)
    ensures inv.subtotal == Total(items)
    ensures inv.total == inv.subtotal * (100.0 + taxRate) / 100.0
    ensures inv.total - inv.subtotal == inv.taxAmount
    ensures taxRate == 0.0 ==> inv.total == inv.subtotal && inv.taxAmount == 0.0
    ensures taxRate >= 0.0 && inv.subtotal >= 0.0 ==> inv.total >= inv.subtotal
  {
    var subtotal := Total(items);
    var taxAmount := subtotal * taxRate / 100.0;
    InvoiceAmounts(subtotal, taxAmount, subtotal + taxAmount)
  }

  /** Two items at 10.99 and 5.00 with an 8.5% tax rate, before rounding to cents. */
  lemma InvoiceExample(a: Product, b: Product)
    requires a.price == 10.99 && b.price == 5.00
    ensures Invoice([a, b], 8.5) == InvoiceAmounts(15.99, 1.359150, 17.349150)
  {
    assert [a, b][..1] == [a];
    assert [a][..0] == [];
    assert Total([a]) == 10.99;
    assert Total([a, b]) == 15.99;
  }
}
