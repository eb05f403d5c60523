/** The catalog side of the product routes that holds logic of its own: listing by category
    (where the category "all" means no filter) and the admin check in front of a delete.
    The product list is taken in the order the document store returns it. */
module Catalog {

  /** A product record as the store holds it. The listing and the delete look only at `id`
      and `category`; the stock counter the cart handlers act on is `Cart.Shop.stocks`, and
      this record's `stocks` field is not linked to it in the model. */
  datatype Product = Product(
    id: string,
    name: string,
    description: string,
    price: int,
    category: string,
    pictures: seq<string>,
    stocks: int)

  datatype Error =
    | UserNotFound      // reading `isAdmin` of a user that does not exist throws (400)
    | PermissionDenied  // 401 "You don't have permission"

  datatype Result<T> = Ok(value: T) | Err(error: Error)

  /** The products that satisfy keep, in their original order. */
  function Select(products: seq<Product>, keep: Product -> bool): (r: seq<Product>)
    ensures |r| <= |products|
    ensures forall x :: multiset(r)[x] == if keep(x) then multiset(products)[x] else 0
  {
    if products == [] then []
    else
      var rest := Select(products[1..], keep);
      assert products == [products[0]] + products[1..];
      if keep(products[0]) then [products[0]] + rest else rest
  }

  /** Selection keeps order: it distributes over concatenation. */
  lemma {:induction false} SelectAppend(a: seq<Product>, b: seq<Product>, keep: Product -> bool)
    ensures Select(a + b, keep) == Select(a, keep) + Select(b, keep)
  {
    if a == [] {
      assert a + b == b;
    } else {
      assert (a + b)[0] == a[0] && (a + b)[1..] == a[1..] + b;
      SelectAppend(a[1..], b, keep);
    }
  }

  function InCategory(category: string): Product -> bool
  {
    (x: Product) => x.category == category
  }

  /** GET /category/:category */
  function ByCategory(products: seq<Product>, category: string): (r: seq<Product>)
    ensures category == "all" ==> r == products
    ensures category != "all" ==>
      forall x :: multiset(r)[x] == if x.category == category then multiset(products)[x] else 0
  {
    if category == "all" then products else Select(products, InCategory(category))
  }

  /** A product appears in the listing for a real category exactly when the store holds it
      and it carries that category. */
  lemma ByCategoryMembers(products: seq<Product>, category: string, x: Product)
    requires category != "all"
    ensures x in ByCategory(products, category) <==> x in products && x.category == category
  {
  }

  /** DELETE /:id. The requester is looked up in the user table; only an admin may delete.
      Deleting an id that no product has leaves the list as it was. The store deletes at most
      one record by id; removing every product with that id is the same because ids are
      unique in the store. */
  function Delete(products: seq<Product>, id: string, admins: map<string, bool>, requester: string)
    : (r: Result<seq<Product>>)
    ensures requester !in admins <==> r == Err(UserNotFound)
    ensures requester in admins && !admins[requester] <==> r == Err(PermissionDenied)
    ensures r.Ok? ==>
      forall x :: multiset(r.value)[x] == if x.id == id then 0 else multiset(products)[x]
  {
    if requester !in admins then Err(UserNotFound)
    else if !admins[requester] then Err(PermissionDenied)
    else Ok(Select(products, (x: Product) => x.id != id))
  }
}
