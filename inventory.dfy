/**
 * The product catalog: products, the add-product form, tag lookup,
 * the validation of a new product and the active-only / all view.
 */
module Inventory {
  import opened Wrappers

  /** A tag is 'active' until the product is sold, then 'disabled'. */
  datatype Status = Active | Disabled

  /** A catalog entry. `price` is the parsed form value; `id` and `createdAt` come from the clock. */
  datatype Product = Product(
    id: int,
    rfidTag: string,
    productName: string,
    productCode: string,
    price: real,
    category: string,
    rfidStatus: Status,
    createdAt: string)

  /** The add-product form: every field is the raw text of its input box. */
  datatype ProductForm = ProductForm(
    rfidTag: string,
    productName: string,
    productCode: string,
    price: string,
    category: string)

  /** Why an add request is refused. */
  datatype AddRejection = MissingField | DuplicateTag

  const EmptyForm := ProductForm("", "", "", "", "")
  const DefaultCategory := "N/A"

  /** Some entry of `items` carries `tag`. */
  predicate HasTag(items: seq<Product>, tag: string)
  {
    exists i :: 0 <= i < |items| && items[i].rfidTag == tag
  }

  /** No two entries of `items` share a tag. */
  ghost predicate UniqueTags(items: seq<Product>)
  {
    forall i, j :: 0 <= i < j < |items| ==> items[i].rfidTag != items[j].rfidTag
  }

  /** The tags of `items`, in order. */
  function TagsOf(items: seq<Product>): seq<string>
  {
    if items == [] then [] else TagsOf(items[..|items| - 1]) + [items[|items| - 1].rfidTag]
  }

  /** Position of the first entry carrying `tag`, or |items| when there is none. */
  function TagIndex(items: seq<Product>, tag: string): (k: nat)
    ensures k <= |items|
    ensures k < |items| ==> items[k].rfidTag == tag
    ensures forall j :: 0 <= j < k ==> items[j].rfidTag != tag
  {
    if items == [] then 0
    else if items[0].rfidTag == tag then 0
    else 1 + TagIndex(items[1..], tag)
  }

  /** `products.find(p => p.rfidTag === tag)`: the first product carrying `tag`. */
  function FindByTag(items: seq<Product>, tag: string): (r: Option<Product>)
    ensures r.None? <==> !HasTag(items, tag)
    ensures r.Some? ==> TagIndex(items, tag) < |items| && r.value == items[TagIndex(items, tag)]
    ensures r.Some? ==> r.value in items && r.value.rfidTag == tag
  {
    var k := TagIndex(items, tag);
    if k < |items| then Some(items[k]) else None
  }

  /** When tags are unique, the lookup returns the one entry that carries the tag. */
  lemma FindByTagUnique(items: seq<Product>, i: int)
    requires UniqueTags(items)
    requires 0 <= i < |items|
    ensures FindByTag(items, items[i].rfidTag) == Some(items[i])
  {
    assert TagIndex(items, items[i].rfidTag) == i;
  }

  /** A required field (tag, name, code or price) is left blank. */
  predicate MissingRequired(form: ProductForm)
  {
    form.rfidTag == "" || form.productName == "" || form.productCode == "" || form.price == ""
  }

  /** The checks `addProduct` makes before creating a product, in source order. */
  function Rejection(products: seq<Product>, form: ProductForm): (r: Option<AddRejection>)
    ensures r == Some(MissingField) <==> MissingRequired(form)
    ensures r == Some(DuplicateTag) <==> !MissingRequired(form) && HasTag(products, form.rfidTag)
    ensures r.None? <==> !MissingRequired(form) && !HasTag(products, form.rfidTag)
  {
    if MissingRequired(form) then Some(MissingField)
    else if FindByTag(products, form.rfidTag).Some? then Some(DuplicateTag)
    else None
  }

  /** The product `addProduct` builds from an accepted form. */
  function NewProduct(form: ProductForm, price: real, id: int, createdAt: string): (p: Product)
    ensures p.rfidStatus == Active
    ensures p.category != ""
    ensures p.rfidTag == form.rfidTag && p.id == id && p.createdAt == createdAt
  {
    Product(id, form.rfidTag, form.productName, form.productCode, price,
            if form.category == "" then DefaultCategory else form.category,
            Active, createdAt)
  }

  /** The catalog after `addProduct`: unchanged when the form is refused, otherwise one product appended. */
  function AddedCatalog(products: seq<Product>, form: ProductForm, price: real, id: int, createdAt: string): (r: seq<Product>)
    ensures Rejection(products, form).Some? ==> r == products
    ensures Rejection(products, form).None? ==>
      && |r| == |products| + 1
      && r[..|products|] == products
      && r[|products|].rfidTag == form.rfidTag
      && r[|products|].productName == form.productName
      && r[|products|].productCode == form.productCode
      && r[|products|].price == price
      && r[|products|].rfidStatus == Active
      && r[|products|].category == (if form.category == "" then DefaultCategory else form.category)
      && r[|products|] == NewProduct(form, price, id, createdAt)
    ensures UniqueTags(products) ==> UniqueTags(r)
  {
    if Rejection(products, form).None? then products + [NewProduct(form, price, id, createdAt)] else products
  }

  /** One press of the "Add Product" button: the form contents and what the clock and parseFloat gave. */
  datatype AddRequest = AddRequest(form: ProductForm, price: real, id: int, createdAt: string)

  /** The catalog after a series of add requests, applied in order. */
  function AddAll(products: seq<Product>, requests: seq<AddRequest>): seq<Product>
    decreases |requests|
  {
    if requests == [] then products
    else
      var q := requests[0];
      AddAll(AddedCatalog(products, q.form, q.price, q.id, q.createdAt), requests[1..])
  }

  /** Any series of adds keeps tags pairwise distinct and never drops or reorders earlier products. */
  lemma {:induction false} AddAllKeepsTagsUnique(products: seq<Product>, requests: seq<AddRequest>)
    requires UniqueTags(products)
    ensures UniqueTags(AddAll(products, requests))
    ensures |AddAll(products, requests)| >= |products|
    ensures AddAll(products, requests)[..|products|] == products
    decreases |requests|
  {
    if requests != [] {
      var q := requests[0];
      var next := AddedCatalog(products, q.form, q.price, q.id, q.createdAt);
      AddAllKeepsTagsUnique(next, requests[1..]);
      var r := AddAll(next, requests[1..]);
      assert r[..|products|] == r[..|next|][..|products|];
    }
  }

  /** A second add of a tag already in the catalog is refused as a duplicate, whatever the other fields say. */
  lemma DuplicateAddRefused(products: seq<Product>, first: AddRequest, second: AddRequest)
    requires Rejection(products, first.form).None?
    requires second.form.rfidTag == first.form.rfidTag
    requires !MissingRequired(second.form)
    ensures var after := AddedCatalog(products, first.form, first.price, first.id, first.createdAt);
      Rejection(after, second.form) == Some(DuplicateTag)
      && AddedCatalog(after, second.form, second.price, second.id, second.createdAt) == after
  {
    var after := AddedCatalog(products, first.form, first.price, first.id, first.createdAt);
    assert after[|products|].rfidTag == second.form.rfidTag;
  }

  /** `getFilteredProducts`: every product, or only the active ones, in catalog order. */
  function FilteredProducts(products: seq<Product>, showAll: bool): (r: seq<Product>)
    ensures showAll ==> r == products
    ensures forall p :: p in r <==> p in products && (showAll || p.rfidStatus == Active)
    ensures |r| <= |products|
  {
    if showAll then products else ActiveOnly(products)
  }

  /** `products.filter(p => p.rfidStatus === 'active')`. */
  function ActiveOnly(products: seq<Product>): (r: seq<Product>)
    ensures forall p :: p in r <==> p in products && p.rfidStatus == Active
    ensures |r| <= |products|
  {
    if products == [] then []
    else
      var rest := ActiveOnly(products[1..]);
      assert forall p :: p in products <==> p == products[0] || p in products[1..];
      if products[0].rfidStatus == Active then [products[0]] + rest else rest
  }

  /** The filter works item by item: the active-only view of a catalog is the views of its parts, in order. */
  lemma {:induction false} ActiveOnlyConcat(a: seq<Product>, b: seq<Product>)
    ensures ActiveOnly(a + b) == ActiveOnly(a) + ActiveOnly(b)
    decreases |a|
  {
    if a == [] {
      assert a + b == b;
    } else {
      assert (a + b)[1..] == a[1..] + b;
      ActiveOnlyConcat(a[1..], b);
    }
  }

  /** A single product is kept exactly when it is active. */
  lemma ActiveOnlySingle(p: Product)
    ensures ActiveOnly([p]) == if p.rfidStatus == Active then [p] else []
  {
  }

  /** Either view keeps catalog order: it is computed part by part, and a single product shows exactly when the view admits it. */
  lemma FilteredProductsInOrder(a: seq<Product>, b: seq<Product>, p: Product, showAll: bool)
    ensures FilteredProducts(a + b, showAll) == FilteredProducts(a, showAll) + FilteredProducts(b, showAll)
    ensures FilteredProducts([p], showAll) == if showAll || p.rfidStatus == Active then [p] else []
  {
    ActiveOnlyConcat(a, b);
    ActiveOnlySingle(p);
  }
}
