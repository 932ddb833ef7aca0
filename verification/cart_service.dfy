/**
 * CartService (backend/services/cart_service.py): the cart rows of a user, adding with
 * quantity merging, updating, removing, clearing, and the cart totals.
 */
module CartService {
  import opened Wrappers
  import opened Exceptions
  import opened Schemas
  import opened Records
  import opened Database
  import opened ProductService

  /** `get_user_cart`: the user's rows, in table order. */
  function GetUserCart(cart: seq<CartRow>, userId: int): (r: seq<CartRow>)
    ensures forall c :: c in r <==> c in cart && c.userId == userId
    ensures |r| <= |cart|
  {
    Filter(cart, (c: CartRow) => c.userId == userId)
  }

  /** A cart without rows of the user gives that user an empty cart. */
  lemma EmptyWhenNoneMatch(cart: seq<CartRow>, userId: int)
    requires forall c :: c in cart ==> c.userId != userId
    ensures GetUserCart(cart, userId) == []
  {
    FilterNone(cart, (c: CartRow) => c.userId == userId);
  }

  const CartItemNotFound := NotFoundException("Cart item not found")

  // ------------------------------------------------------------------ totals

  /** What one row adds to the cart's price: price × quantity, or nothing when its product is gone. */
  function LinePrice(row: CartRow, products: seq<Product>): int
  {
    match ProductWithId(products, row.productId)
    case None => 0
    case Some(p) => p.priceCents * row.quantity
  }

  /** What one row adds to the item count: its quantity, or nothing when its product is gone. */
  function LineItems(row: CartRow, products: seq<Product>): int
  {
    if ProductWithId(products, row.productId).Some? then row.quantity else 0
  }

  function CartPrice(rows: seq<CartRow>, products: seq<Product>): int
  {
    if |rows| == 0 then 0 else CartPrice(rows[..|rows| - 1], products) + LinePrice(rows[|rows| - 1], products)
  }

  function CartItems(rows: seq<CartRow>, products: seq<Product>): int
  {
    if |rows| == 0 then 0 else CartItems(rows[..|rows| - 1], products) + LineItems(rows[|rows| - 1], products)
  }

  /** Plain sum of the rows' quantities. */
  function SumQuantities(rows: seq<CartRow>): int
  {
    if |rows| == 0 then 0 else SumQuantities(rows[..|rows| - 1]) + rows[|rows| - 1].quantity
  }

  /** The totals split over a concatenation. */
  lemma {:induction false} CartTotalsAppend(a: seq<CartRow>, b: seq<CartRow>, products: seq<Product>)
    ensures CartPrice(a + b, products) == CartPrice(a, products) + CartPrice(b, products)
    ensures CartItems(a + b, products) == CartItems(a, products) + CartItems(b, products)
    decreases |b|
  {
    if |b| == 0 {
      assert a + b == a;
    } else {
      assert (a + b)[..|a + b| - 1] == a + b[..|b| - 1];
      CartTotalsAppend(a, b[..|b| - 1], products);
    }
  }

  /** The totals of the first `i + 1` rows add row `i`'s share to those of the first `i`. */
  lemma CartTotalsNext(rows: seq<CartRow>, i: nat, products: seq<Product>)
    requires i < |rows|
    ensures CartPrice(rows[..i + 1], products) == CartPrice(rows[..i], products) + LinePrice(rows[i], products)
    ensures CartItems(rows[..i + 1], products) == CartItems(rows[..i], products) + LineItems(rows[i], products)
  {
    assert rows[..i + 1][..i] == rows[..i];
  }

  /** Rows whose products all exist count every unit: the item total is the sum of quantities. */
  lemma {:induction false} CartTotalsOfKnownProducts(rows: seq<CartRow>, products: seq<Product>)
    requires forall c :: c in rows ==> ProductWithId(products, c.productId).Some?
    ensures CartItems(rows, products) == SumQuantities(rows)
  {
    if |rows| > 0 {
      var init := rows[..|rows| - 1];
      assert forall c :: c in init ==> c in rows;
      CartTotalsOfKnownProducts(init, products);
      assert rows[|rows| - 1] in rows;
    }
  }

  /** A row of a present product, with a positive quantity and price, adds to both totals. */
  lemma LinePricePositive(row: CartRow, products: seq<Product>)
    requires ProductWithId(products, row.productId).Some? && row.quantity > 0
    requires forall p :: p in products ==> p.priceCents > 0
    ensures LinePrice(row, products) > 0 && LineItems(row, products) > 0
  {
    var p := ProductWithId(products, row.productId).value;
    assert p in products;
    MulPositive(p.priceCents, row.quantity);
  }

  lemma MulPositive(a: int, b: int)
    requires a > 0 && b > 0
    ensures a * b > 0
  {
  }

  /** With every product present, positive quantities and positive prices, a cart has positive
      totals exactly when it is non-empty. */
  lemma {:induction false} CartTotalsPositive(rows: seq<CartRow>, products: seq<Product>)
    requires forall c :: c in rows ==> ProductWithId(products, c.productId).Some? && c.quantity > 0
    requires forall p :: p in products ==> p.priceCents > 0
    ensures |rows| > 0 <==> CartPrice(rows, products) > 0
    ensures |rows| > 0 <==> CartItems(rows, products) > 0
  {
    if |rows| > 0 {
      var init := rows[..|rows| - 1];
      var last := rows[|rows| - 1];
      assert forall c :: c in init ==> c in rows;
      CartTotalsPositive(init, products);
      assert last in rows;
      LinePricePositive(last, products);
    }
  }

  /** `get_cart_total`: the loop over the user's rows that skips rows whose product is gone. */
  method GetCartTotal(cart: seq<CartRow>, products: seq<Product>, userId: int)
    returns (totalPriceCents: int, totalItems: int)
    ensures totalPriceCents == CartPrice(GetUserCart(cart, userId), products)
    ensures totalItems == CartItems(GetUserCart(cart, userId), products)
  {
    var items := GetUserCart(cart, userId);
    totalPriceCents, totalItems := 0, 0;
    for i := 0 to |items|
      invariant totalPriceCents == CartPrice(items[..i], products)
      invariant totalItems == CartItems(items[..i], products)
    {
      CartTotalsNext(items, i, products);
      var product := ProductWithId(products, items[i].productId);
      if product.Some? {
        assert LinePrice(items[i], products) == product.value.priceCents * items[i].quantity;
        totalPriceCents := totalPriceCents + product.value.priceCents * items[i].quantity;
        totalItems := totalItems + items[i].quantity;
      }
    }
    assert items[..|items|] == items;
  }

  // ------------------------------------------------------------------ changes

  /** `add_to_cart`: the product must exist and hold the requested quantity; an existing row of
      the user for the product is merged (and the merged quantity checked again), otherwise one
      new row is inserted. `cart.user_id` is a foreign key, so the insert fails at commit when
      no user row has `userId` (an account deleted while its token is still valid), and the
      catch-all handler answers 500. */
  method AddToCart(db: Db, userId: int, item: CartItemCreate) returns (r: Result<CartRow, AppException>)
    requires db.Valid() && ValidCartItemCreate(item)
    modifies db
    ensures db.Valid()
    ensures r.Err? ==> db.cart == old(db.cart) && db.nextCartId == old(db.nextCartId)
    ensures ProductWithId(old(db.products), item.productId).None? ==> r == Err(ProductNotFound(item.productId))
    ensures ProductWithId(old(db.products), item.productId).Some? ==>
              var p := ProductWithId(old(db.products), item.productId).value;
              if p.stockQuantity < item.quantity then r == Err(StockShortError(p))
              else match UserProductRow(old(db.cart), userId, item.productId)
                case Some(k) =>
                  var row := old(db.cart)[k];
                  if p.stockQuantity < row.quantity + item.quantity then r == Err(StockShortError(p))
                  else r == Ok(row.(quantity := row.quantity + item.quantity))
                       && db.cart == old(db.cart)[k := r.value] && db.nextCartId == old(db.nextCartId)
                case None =>
                  if userId !in UserIds(old(db.users)) then r == Err(InternalError)
                  else r == Ok(CartRow(old(db.nextCartId), userId, item.productId, item.quantity))
                       && db.cart == old(db.cart) + [r.value] && db.nextCartId == old(db.nextCartId) + 1
    ensures userId !in UserIds(old(db.users)) ==> r.Err?
    ensures && userId !in UserIds(old(db.users))
            && ProductWithId(old(db.products), item.productId).Some?
            && item.quantity <= ProductWithId(old(db.products), item.productId).value.stockQuantity
            ==> r == Err(InternalError)
    ensures db.products == old(db.products) && db.users == old(db.users) && db.orders == old(db.orders)
    ensures db.nextProductId == old(db.nextProductId) && db.nextUserId == old(db.nextUserId)
    ensures db.nextOrderId == old(db.nextOrderId) && db.nextOrderItemId == old(db.nextOrderItemId)
  {
    var product := GetProductById(db.products, item.productId);
    if product.Err? {
      return Err(product.error);
    }
    var p := product.value;
    if p.stockQuantity < item.quantity {
      return Err(StockShortError(p));
    }
    var existing := UserProductRow(db.cart, userId, item.productId);
    if existing.Some? {
      assert db.cart[existing.value] in db.cart;
      var k := existing.value;
      var row := db.cart[k];
      var newQuantity := row.quantity + item.quantity;
      if p.stockQuantity < newQuantity {
        return Err(StockShortError(p));
      }
      assert row in db.cart;
      var merged := row.(quantity := newQuantity);
      db.ReplaceCartRow(k, merged);
      return Ok(merged);
    } else if userId !in UserIds(db.users) {
      return Err(InternalError);
    } else {
      var row := CartRow(db.nextCartId, userId, item.productId, item.quantity);
      db.AppendCartRow(row);
      return Ok(row);
    }
  }

  /** The first row of this user for this product. */
  function UserProductRow(cart: seq<CartRow>, userId: int, productId: int): (r: Option<nat>)
    ensures r.Some? ==> r.value < |cart| && cart[r.value].userId == userId && cart[r.value].productId == productId
    ensures r.None? <==> forall c :: c in cart ==> c.userId != userId || c.productId != productId
  {
    FirstIndex(cart, (c: CartRow) => c.userId == userId && c.productId == productId)
  }

  /** The first row with this id that belongs to this user. */
  function OwnedRow(cart: seq<CartRow>, userId: int, itemId: int): (r: Option<nat>)
    ensures r.Some? ==> r.value < |cart| && cart[r.value].id == itemId && cart[r.value].userId == userId
    ensures r.None? <==> forall c :: c in cart ==> c.id != itemId || c.userId != userId
  {
    FirstIndex(cart, (c: CartRow) => c.id == itemId && c.userId == userId)
  }

  /** `update_cart_item`: NotFound unless the user owns the row; the row's product must exist
      and hold the new quantity; then exactly that row's quantity becomes the new value. */
  method UpdateCartItem(db: Db, userId: int, itemId: int, update: CartItemUpdate) returns (r: Result<CartRow, AppException>)
    requires db.Valid() && ValidCartItemUpdate(update)
    modifies db
    ensures db.Valid()
    ensures r.Err? ==> db.cart == old(db.cart)
    ensures OwnedRow(old(db.cart), userId, itemId).None? ==> r == Err(CartItemNotFound)
    ensures OwnedRow(old(db.cart), userId, itemId).Some? ==>
              var k := OwnedRow(old(db.cart), userId, itemId).value;
              var row := old(db.cart)[k];
              match ProductWithId(old(db.products), row.productId)
              case None => r == Err(ProductNotFound(row.productId))
              case Some(p) =>
                if p.stockQuantity < update.quantity then r == Err(StockShortError(p))
                else r == Ok(row.(quantity := update.quantity)) && db.cart == old(db.cart)[k := r.value]
    ensures db.products == old(db.products) && db.users == old(db.users) && db.orders == old(db.orders)
    ensures db.nextProductId == old(db.nextProductId) && db.nextUserId == old(db.nextUserId)
    ensures db.nextCartId == old(db.nextCartId)
    ensures db.nextOrderId == old(db.nextOrderId) && db.nextOrderItemId == old(db.nextOrderItemId)
  {
    var owned := OwnedRow(db.cart, userId, itemId);
    if owned.None? {
      return Err(CartItemNotFound);
    }
    var k := owned.value;
    var row := db.cart[k];
    var product := GetProductById(db.products, row.productId);
    if product.Err? {
      return Err(product.error);
    }
    var p := product.value;
    if p.stockQuantity < update.quantity {
      return Err(StockShortError(p));
    }
    var updated := row.(quantity := update.quantity);
    db.ReplaceCartRow(k, updated);
    return Ok(updated);
  }

  /** `remove_from_cart`: NotFound unless the user owns the row; otherwise exactly that row goes. */
  method RemoveFromCart(db: Db, userId: int, itemId: int) returns (r: Result<(), AppException>)
    requires db.Valid()
    modifies db
    ensures db.Valid()
    ensures OwnedRow(old(db.cart), userId, itemId).None? ==> r == Err(CartItemNotFound) && db.cart == old(db.cart)
    ensures OwnedRow(old(db.cart), userId, itemId).Some? ==>
              r.Ok? && db.cart == RemoveAt(old(db.cart), OwnedRow(old(db.cart), userId, itemId).value)
    ensures forall c :: c in db.cart <==> c in old(db.cart) && (c.id != itemId || c.userId != userId)
    ensures db.products == old(db.products) && db.users == old(db.users) && db.orders == old(db.orders)
    ensures db.nextProductId == old(db.nextProductId) && db.nextUserId == old(db.nextUserId)
    ensures db.nextCartId == old(db.nextCartId)
    ensures db.nextOrderId == old(db.nextOrderId) && db.nextOrderItemId == old(db.nextOrderItemId)
  {
    var owned := OwnedRow(db.cart, userId, itemId);
    if owned.None? {
      return Err(CartItemNotFound);
    }
    var k := owned.value;
    var before := db.cart;
    CartTableRemove(before, db.nextCartId, k);
    RemoveAtMembers(before, k);
    forall c | c in RemoveAt(before, k) ensures c.id != itemId {
      var i :| 0 <= i < |RemoveAt(before, k)| && RemoveAt(before, k)[i] == c;
      var j := if i < k then i else i + 1;
      assert before[j] == c && j != k;
      assert (j < k ==> before[j].id != before[k].id) && (k < j ==> before[k].id != before[j].id);
    }
    db.cart := RemoveAt(before, k);
    return Ok(());
  }

  /** `clear_cart`: every row of the user goes, and no row of anyone else. */
  method ClearCart(db: Db, userId: int)
    requires db.Valid()
    modifies db
    ensures db.Valid()
    ensures db.cart == CartWithoutUser(old(db.cart), userId)
    ensures forall c :: c in db.cart <==> c in old(db.cart) && c.userId != userId
    ensures GetUserCart(db.cart, userId) == []
    ensures db.products == old(db.products) && db.users == old(db.users) && db.orders == old(db.orders)
    ensures db.nextProductId == old(db.nextProductId) && db.nextUserId == old(db.nextUserId)
    ensures db.nextCartId == old(db.nextCartId)
    ensures db.nextOrderId == old(db.nextOrderId) && db.nextOrderItemId == old(db.nextOrderItemId)
  {
    CartWithoutUserOk(db.cart, db.nextCartId, userId);
    db.cart := CartWithoutUser(db.cart, userId);
    EmptyWhenNoneMatch(db.cart, userId);
  }
}
