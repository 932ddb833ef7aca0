/**
 * Rows of the product, user and cart tables (the ORM models of backend/models), as values.
 * The database tables that hold them are in module Database. Prices are integer cents.
 */
module Records {
  import opened Wrappers

  datatype Product = Product(
    id: int,
    name: string,
    description: Option<string>,
    priceCents: int,
    category: string,
    stockQuantity: int,
    imageUrl: Option<string>)

  datatype User = User(
    id: int,
    username: string,
    email: string,
    hashedPassword: string,
    fullName: Option<string>,
    phone: Option<string>,
    address: Option<string>,
    isActive: bool,
    isAdmin: bool)

  /** One row of the cart table: `quantity` units of a product in a user's cart. */
  datatype CartRow = CartRow(id: int, userId: int, productId: int, quantity: int)

  /** The product row with this id, if any (the relationship `cart_item.product`). */
  function ProductWithId(products: seq<Product>, id: int): (r: Option<Product>)
    ensures r.Some? ==> r.value in products && r.value.id == id
    ensures r.None? <==> forall p :: p in products ==> p.id != id
  {
    match FirstIndex(products, (p: Product) => p.id == id)
    case None => None
    case Some(k) => Some(products[k])
  }

  /** No two rows share an id. */
  predicate UniqueProductIds(products: seq<Product>)
  {
    forall i, j :: 0 <= i < j < |products| ==> products[i].id != products[j].id
  }

  /** With unique ids, rows at different indices have different ids. */
  lemma DistinctIds(products: seq<Product>, j: int, k: int)
    requires UniqueProductIds(products) && 0 <= j < |products| && 0 <= k < |products|
    ensures j != k ==> products[j].id != products[k].id
  {
  }

  /** Replacing a row by one with the same id keeps the ids unique and adds only that row. */
  lemma ReplaceSameId(products: seq<Product>, k: int, q: Product)
    requires UniqueProductIds(products) && 0 <= k < |products| && q.id == products[k].id
    ensures UniqueProductIds(products[k := q])
    ensures forall p :: p in products[k := q] ==> p in products || p == q
  {
    var r := products[k := q];
    forall p | p in r ensures p in products || p == q {
      var i :| 0 <= i < |r| && r[i] == p;
      if i != k { assert products[i] == p; }
    }
  }

  /** With unique ids, the row found for an id is the one at any index holding that id. */
  lemma ProductWithIdAt(products: seq<Product>, k: int)
    requires UniqueProductIds(products) && 0 <= k < |products|
    ensures ProductWithId(products, products[k].id) == Some(products[k])
  {
    var found := FirstIndex(products, (p: Product) => p.id == products[k].id);
    assert found.Some?;
    var j := found.value;
    assert products[j].id == products[k].id;
    assert j == k;
  }
}
